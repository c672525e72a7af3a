/** The reactor: one worker, its tables, and the descriptors it has to close.
    Other threads act at the marked points; the kernel picks every answer. */
module Workers {
  import opened ByteBuffers
  import Dispatch
  import opened Intakes
  import opened SessionFates
  import opened SessionRuns
  import opened SessionTheorems
  import opened Sessions
  import opened Traces
  import opened WorkerTables

  class Worker {
    const wakeFd: int
    const capacity: nat
    const backlog: nat
    const queueLimit: nat
    const idleTimeout: nat       // all times in milliseconds
    const connectTimeout: nat
    var running: bool
    var queue: seq<int>          // clients handed over and not yet fetched
    var draining: seq<int>       // the local queue of drainQueue
    var fdToSession: map<int, nat>
    var sessions: map<nat, Session>
    var leases: map<nat, nat>    // the backend each session object holds
    var activeSessions: nat
    var nextSessionId: nat
    var now: nat
    var lastSweep: nat

    // The kernel's side.
    var signal: nat                   // the eventfd counter
    var interests: map<int, Events>   // epoll registrations
    var held: set<int>                // open descriptors this worker must close
    var dying: set<int>               // of sessions out of the tables, still referenced by a local list
    var leaving: set<nat>             // those sessions

    // This worker's share of the counters.
    var sessionsOpened: nat
    var sessionsClosed: nat
    var rejected: nat
    var discarded: nat
    var connectFailures: nat
    var failed: seq<nat>              // per backend

    // Histories.
    ghost var arrivals: seq<int>
    ghost var handled: seq<int>
    ghost var outcomes: map<nat, nat> // connect outcomes recorded, per session ever created
    ghost var steps: seq<Dispatch.Step>
    ghost var phase: Dispatch.Phase
    ghost var reported: seq<seq<Ready>>    // what epoll_wait has returned, and what has been handled
    ghost var processed: seq<seq<Ready>>
    ghost var asked: bool             // another thread has called stop()
    ghost var expired: bool           // the process lets the worker run no longer
    ghost var lost: bool              // epoll failed under a running worker, which Dispatch leaves out

    ghost function Snapshot(): Tables
      reads `queue, `draining, `fdToSession, `sessions, `leases, `activeSessions, `nextSessionId, `interests, `held
      reads `dying, `leaving
      reads `sessionsOpened, `sessionsClosed, `connectFailures, `failed, `outcomes
    {
      Tables(sessions, fdToSession, interests, outcomes, leases, leaving, held, draining + queue, dying, wakeFd,
             nextSessionId, capacity, failed, connectFailures, activeSessions, sessionsOpened - sessionsClosed)
    }

    /** This worker as Dispatch sees it, in the given phase of its loop. */
    ghost function Image(phase: Dispatch.Phase): Dispatch.Worker
      reads `running, `signal, `queue, `draining, `sessionsOpened, `activeSessions, `discarded, `arrivals, `handled
    {
      Dispatch.Worker(running, phase, signal, queue, draining, sessionsOpened, activeSessions, discarded, arrivals,
                      handled)
    }

    /** The recorded steps are a schedule of Dispatch, and have led to this worker as it is. */
    ghost predicate Follows()
      reads `running, `signal, `queue, `draining, `sessionsOpened, `activeSessions, `discarded, `arrivals, `handled
      reads `steps, `phase, `lost, `asked, `expired
    {
      && queueLimit == 4 * backlog && (running || asked || expired)
      && (!lost ==> Dispatch.Lives(backlog, steps, Image(phase)))
    }

    /** Records a step of the worker's own: `before` was its image. */
    ghost method Record(before: Dispatch.Worker, step: Dispatch.Step, next: Dispatch.Phase)
      requires queueLimit == 4 * backlog && (!lost ==> Dispatch.Lives(backlog, steps, before))
      requires running || asked || expired
      requires Dispatch.Takes(before, step, Image(next)) && step.w == 0
      modifies this`steps, this`phase
      ensures Follows() && phase == next && steps == old(steps) + [step]
    {
      hide Image, Dispatch.Takes, Dispatch.Lives;
      if !lost {
        Dispatch.LivesOn(backlog, steps, before, step, Image(next));
      }
      steps, phase := steps + [step], next;
    }

    /** A step that only goes on to the next phase. */
    ghost method Enter(step: Dispatch.Step, next: Dispatch.Phase)
      requires Follows() && Dispatch.Takes(Image(phase), step, Image(next)) && step.w == 0
      modifies this`steps, this`phase
      ensures Follows() && phase == next && steps == old(steps) + [step]
    {
      hide Image, Dispatch.Takes, Dispatch.Lives;
      Record(Image(phase), step, next);
    }

    /** What changes as clients are given sessions. */
    ghost function AtDesk(): Desk
      reads `sessions, `leases, `failed, `nextSessionId, `rejected, `sessionsOpened
    {
      Desk(sessions, leases, failed, nextSessionId, rejected, sessionsOpened)
    }

    ghost function Books(): Ledger
      reads `sessions, `leases, `failed, `nextSessionId, `rejected, `sessionsOpened
      reads `held, `arrivals, `handled, `discarded, `running
    {
      Ledger(AtDesk(), held, arrivals, handled, discarded, running)
    }

    ghost function Registered(): Registry
      reads `fdToSession, `sessions, `nextSessionId
    {
      Registry(sessions, fdToSession, nextSessionId, capacity)
    }

    ghost predicate Valid()
      reads `queue, `draining, `fdToSession, `sessions, `leases, `activeSessions, `nextSessionId, `interests, `held
      reads `dying, `leaving
      reads `sessionsOpened, `sessionsClosed, `rejected, `discarded, `connectFailures, `failed, `arrivals, `handled
      reads `outcomes
    {
      && Good(sessions, nextSessionId, capacity)
      && Indexed(fdToSession, sessions)
      && Armed(interests, fdToSession, sessions, wakeFd)
      && Accounted(held, fdToSession, draining + queue, dying, wakeFd)
      && Counted(sessions, leases, leaving, nextSessionId, activeSessions, sessionsOpened - sessionsClosed)
      && OutcomesAgree(outcomes, sessions, nextSessionId)
      && Charged(connectFailures, failed, leases)
      && InOrder(arrivals, handled, draining + queue, rejected + sessionsOpened + discarded)
      && |queue| <= queueLimit
    }

    constructor (wakeFd: int, capacity: nat, backlog: nat, idleTimeout: nat, connectTimeout: nat, backends: nat,
                 now: nat)
      ensures Valid() && sessions == map[] && held == {wakeFd} && queue == draining == [] && dying == {}
      ensures leaving == {}
      ensures this.wakeFd == wakeFd && this.capacity == capacity && queueLimit == backlog * 4
      ensures this.now == lastSweep == now && running
      ensures this.idleTimeout == idleTimeout && this.connectTimeout == connectTimeout
      ensures Follows() && steps == [] && phase.Waiting? && !lost && this.backlog == backlog
      ensures !asked && !expired
      ensures reported == processed == []
    {
      hide Good, Indexed, Armed, Accounted, Counted, OutcomesAgree, InOrder, Charged, Dispatch.Lives;
      this.wakeFd, this.capacity, this.backlog, this.queueLimit := wakeFd, capacity, backlog, backlog * 4;
      this.idleTimeout, this.connectTimeout := idleTimeout, connectTimeout;
      running := true;
      queue, draining := [], [];
      fdToSession, sessions, leases := map[], map[], map[];
      activeSessions, nextSessionId := 0, 1;
      this.now, lastSweep := now, now;
      interests := map[wakeFd := Events(true, false, false, false, false)];
      held, dying, leaving := {wakeFd}, {}, {};
      sessionsOpened, sessionsClosed, rejected, discarded, connectFailures := 0, 0, 0, 0, 0;
      failed := seq(backends, _ => 0);
      arrivals, handled, outcomes := [], [], map[];
      signal, steps, phase, lost := 0, [], Dispatch.Waiting, false;
      reported, processed, asked, expired := [], [], false, false;
      new;
      Dispatch.LifeBegins(backlog);
      NothingYet(wakeFd, capacity, failed, interests);
      assert draining + queue == [];
    }

    /** Writes to the eventfd; a full counter refuses, and wakes the worker all the same. */
    method WriteSignal()
      modifies this`signal
      ensures signal == if old(signal) < Dispatch.SIGNAL_MAX then old(signal) + 1 else old(signal)
    {
      if signal < Dispatch.SIGNAL_MAX {
        signal := signal + 1;
      }
    }

    /** The acceptor hands over a client; the descriptor is the worker's exactly when it says so. */
    method Enqueue(clientFd: int) returns (accepted: bool)
      requires Valid() && Follows() && clientFd !in held
      modifies this`queue, this`held, this`arrivals, this`signal, this`steps
      ensures Valid() && Follows()
      ensures accepted == (old(running) && |old(queue)| < queueLimit)
      ensures accepted ==> queue == old(queue) + [clientFd] && held == old(held) + {clientFd}
      ensures accepted ==> arrivals == old(arrivals) + [clientFd]
      ensures !accepted ==> queue == old(queue) && held == old(held) && arrivals == old(arrivals)
      ensures accepted ==> Image(phase) == Dispatch.Signalled(Dispatch.Given(old(Image(phase)), clientFd))
      ensures !accepted ==> Image(phase) == old(Image(phase))
      ensures signal >= old(signal)
    {
      hide Good, Indexed, Armed, Accounted, Counted, OutcomesAgree, Charged, Dispatch.Lives;
      if !running || |queue| >= queueLimit {
        return false;
      }
      AccountedEnqueue(held, fdToSession, draining + queue, dying, wakeFd, clientFd);
      assert draining + (queue + [clientFd]) == draining + queue + [clientFd];
      assert handled + (draining + queue + [clientFd]) == handled + (draining + queue) + [clientFd];
      RecordHandOver(clientFd);
      queue := queue + [clientFd];
      held := held + {clientFd};
      arrivals := arrivals + [clientFd];
      WriteSignal();
      return true;
    }

    ghost method RecordHandOver(clientFd: int)
      requires Follows() && running && |queue| < queueLimit
      modifies this`steps
      ensures !lost ==>
                Dispatch.Lives(backlog, steps, Dispatch.Signalled(Dispatch.Given(Image(phase), clientFd)))
    {
      hide Dispatch.Lives;
      if !lost {
        Dispatch.LivesGiven(backlog, steps, Image(phase), clientFd);
      }
      steps := steps + Dispatch.HandOver(clientFd);
    }

    /** stop(): the flag, then the signal. */
    method Stop(ghost byOthers: bool)
      requires Follows()
      modifies this`running, this`signal, this`steps
      modifies (if byOthers then {this} else {})`asked, (if byOthers then {} else {this})`expired
      ensures asked == (old(asked) || byOthers)
      ensures Follows() && !running && signal >= old(signal)
      ensures Image(phase) ==
                if old(running) then Dispatch.Signalled(old(Image(phase)).(running := false)) else old(Image(phase))
    {
      hide Dispatch.Lives;
      if byOthers {
        asked := true;
      } else {
        expired := true;
      }
      if running {
        if !lost {
          Dispatch.LivesAsked(backlog, steps, Image(phase));
        }
        steps := steps + Dispatch.STOP;
        running := false;
        WriteSignal();
      }
    }

    /** Anything the acceptor may do meanwhile: hand over clients, ask the worker to stop. It cannot get
        the descriptors that the kernel is going to hand to this worker next. */
    method OtherThreads(reserved: set<int>) returns (ghost clients: seq<int>)
      requires Valid() && Follows()
      modifies this`queue, this`held, this`arrivals, this`running, this`signal, this`steps, this`asked
      ensures Valid() && Follows()
      ensures Image(phase) == Dispatch.GivenAll(old(Image(phase)), clients).(running := running, signal := signal)
      ensures held >= old(held) && signal >= old(signal) && Agree(held, old(held), reserved)
      ensures arrivals == old(arrivals) + clients
      ensures (running ==> old(running)) && (old(asked) ==> asked)
    {
      hide Valid, Follows;
      var attempts: nat :| attempts >= 0;
      clients := [];
      for i := 0 to attempts
        invariant Valid() && Follows() && held >= old(held) && running == old(running) && signal >= old(signal)
        invariant queue == old(queue) + clients && arrivals == old(arrivals) + clients
        invariant Agree(held, old(held), reserved) && asked == old(asked)
      {
        var fd: int := *;
        if fd !in held && fd !in reserved {
          var accepted := Enqueue(fd);
          clients := if accepted then clients + [fd] else clients;
        }
      }
      if * {
        Stop(true);
      }
    }

    method Close(fd: int)
      requires fd in held
      modifies this`held
      ensures held == old(held) - {fd}
    {
      held := held - {fd};
    }

    /** A connect attempt of session `id` is settled: at most one outcome may ever be recorded. */
    method RecordOutcome(id: nat, success: bool)
      requires id in leases && leases[id] < |failed| && id in outcomes && outcomes[id] == 0
      modifies this`connectFailures, this`failed, this`outcomes
      ensures outcomes == old(outcomes)[id := 1]
      ensures |failed| == |old(failed)|
      ensures old(connectFailures) == Sum(old(failed)) ==> connectFailures == Sum(failed)
      ensures connectFailures == old(connectFailures) + if success then 0 else 1
      ensures failed == if success then old(failed) else Bumped(old(failed), leases[id])
    {
      outcomes := outcomes[id := 1];
      if !success {
        SumBump(failed, leases[id]);
        failed := failed[leases[id] := failed[leases[id]] + 1];
        connectFailures := connectFailures + 1;
      }
    }

    /** Counts what an event settled. */
    method RecordNews(id: nat, before: Session, after: Session)
      requires id in leases && leases[id] < |failed| && id in outcomes && outcomes[id] == Settlements(before.trace)
      requires Settlements(after.trace)
            == Settlements(before.trace) + Newly(ConnectOk, before.trace, after.trace)
                 + Newly(ConnectFailed, before.trace, after.trace)
      modifies this`connectFailures, this`failed, this`outcomes
      ensures outcomes == old(outcomes)[id := Settlements(after.trace)]
      ensures |failed| == |old(failed)|
      ensures old(connectFailures) == Sum(old(failed)) ==> connectFailures == Sum(failed)
      ensures connectFailures == old(connectFailures) + Newly(ConnectFailed, before.trace, after.trace)
      ensures failed == if Newly(ConnectFailed, before.trace, after.trace) == 1 then Bumped(old(failed), leases[id])
                        else old(failed)
    {
      var success, failure :=
        Newly(ConnectOk, before.trace, after.trace) == 1, Newly(ConnectFailed, before.trace, after.trace) == 1;
      if success || failure {
        RecordOutcome(id, success);
      }
    }

    /** modifyFd for both descriptors; a failure ends the session. */
    method UpdateInterests(s: Session, clientModOk: bool, upstreamModOk: bool) returns (r: Session)
      requires BuffersValid(s) && !s.closing && s.clientFd != s.upstreamFd
      modifies this`interests
      ensures r == s.(closing := !(clientModOk && upstreamModOk))
      ensures interests.Keys
                == old(interests).Keys + (if clientModOk then {s.clientFd} else {})
                     + (if clientModOk && upstreamModOk then {s.upstreamFd} else {})
      ensures forall fd | fd in old(interests) && !s.Owns(fd) :: interests[fd] == old(interests)[fd]
      ensures !r.closing ==> interests[s.clientFd] == ClientEvents(s) && interests[s.upstreamFd] == UpstreamEvents(s)
    {
      if !clientModOk {
        return s.(closing := true);
      }
      interests := interests[s.clientFd := ClientEvents(s)];
      if !upstreamModOk {
        return s.(closing := true);
      }
      interests := interests[s.upstreamFd := UpstreamEvents(s)];
      return s;
    }

    /** handleEvent on one session, its bookkeeping, and the new interests. */
    method Attend(id: nat, s: Session, r: Ready) returns (after: Session)
      requires Settled(s) && BuffersValid(s) && !s.closing && s.Owns(r.fd)
      requires id in leases && leases[id] < |failed| && id in outcomes && outcomes[id] == Settlements(s.trace)
      requires s.clientFd in interests && s.upstreamFd in interests
      modifies this`interests, this`connectFailures, this`failed, this`outcomes
      ensures BuffersValid(s) && after == Deliver(s, r) && Settled(after) && SameShape(s, after)
      ensures after.clientFd == s.clientFd && after.upstreamFd == s.upstreamFd
      ensures interests.Keys == old(interests).Keys
      ensures forall fd | fd in interests && !s.Owns(fd) :: interests[fd] == old(interests)[fd]
      ensures !after.closing ==>
                interests[s.clientFd] == ClientEvents(after) && interests[s.upstreamFd] == UpstreamEvents(after)
      ensures outcomes == old(outcomes)[id := Settlements(after.trace)]
      ensures |failed| == |old(failed)|
      ensures old(connectFailures) == Sum(old(failed)) ==> connectFailures == Sum(failed)
      ensures failed == if Newly(ConnectFailed, s.trace, after.trace) == 1 then Bumped(old(failed), leases[id])
                        else old(failed)
    {
      hide Settled, Deliver, Handle, Settlements, ClientEvents, UpstreamEvents, Sum, SameShape;
      DeliveryIsNews(s, r);
      after := Handle(s, r.fd, r.events, r.answers);
      RecordNews(id, s, after);
      if !after.closing {
        after := UpdateInterests(after, r.clientModOk, r.upstreamModOk);
      }
    }

    method AttendOwner(id: nat, s: Session, r: Ready) returns (after: Session)
      requires BuffersValid(s) && !s.closing && Valid() && r.fd in fdToSession && fdToSession[r.fd] == id
      requires id in sessions && sessions[id] == s
      modifies this`interests, this`connectFailures, this`failed, this`outcomes
      ensures after == Deliver(s, r)
      ensures Good(sessions[id := after], nextSessionId, capacity) && Indexed(fdToSession, sessions[id := after])
      ensures Armed(interests, fdToSession, sessions[id := after], wakeFd)
      ensures OutcomesAgree(outcomes, sessions[id := after], nextSessionId) && Charged(connectFailures, failed, leases)
      ensures Counted(sessions[id := after], leases, leaving, nextSessionId, activeSessions,
                      sessionsOpened - sessionsClosed)
      ensures id in leases && leases[id] < |old(failed)|
      ensures failed == if Newly(ConnectFailed, s.trace, after.trace) == 1 then Bumped(old(failed), leases[id])
                        else old(failed)
    {
      hide Settled, Deliver, Settlements, ClientEvents, UpstreamEvents, BuffersValid, Sum, SameShape;
      hide Good, Indexed, Armed, Accounted, Counted, OutcomesAgree, Charged, InOrder;
      OwnerIsSettled(Snapshot(), r.fd);
      OutcomeOf(outcomes, sessions, nextSessionId, id);
      LeaseOf(Snapshot(), id);
      after := Attend(id, s, r);
      ChargedStill(old(Snapshot()), connectFailures, failed);
      EntryAttended(old(Snapshot()), interests, id, after);
      CountedFor(old(Snapshot()), sessions[id := after]);
    }

    /** One entry of a batch reaches the session that owns its descriptor. */
    method HandleReady(r: Ready)
      requires Valid() && r.fd in fdToSession && fdToSession[r.fd] in sessions && !sessions[fdToSession[r.fd]].closing
      modifies this`sessions, this`interests, this`connectFailures, this`failed, this`outcomes
      ensures Valid()
      ensures
        var id := fdToSession[r.fd];
        && id in old(sessions) && BuffersValid(old(sessions)[id])
        && sessions == old(sessions)[id := Deliver(old(sessions)[id], r)]
        && id in leases && leases[id] < |old(failed)|
        && failed == if Newly(ConnectFailed, old(sessions)[id].trace, sessions[id].trace) == 1
                     then Bumped(old(failed), leases[id]) else old(failed)
    {
      hide Good, Indexed, Armed, Accounted, Counted, OutcomesAgree, Charged, InOrder, Deliver, BuffersValid, Settled;
      OwnerIsSettled(Snapshot(), r.fd);
      var id := fdToSession[r.fd];
      var after := AttendOwner(id, sessions[id], r);
      sessions := sessions[id := after];
    }

    /** The client at the head of the local queue has been dealt with. */
    method Fetched(ghost finished: nat)
      requires draining != [] && InOrder(arrivals, handled, draining + queue, finished)
      modifies this`draining, this`handled
      ensures draining == old(draining)[1..] && handled == old(handled) + [old(draining)[0]]
      ensures draining + queue == (old(draining) + queue)[1..]
      ensures InOrder(arrivals, handled, draining + queue, finished + 1)
    {
      assert draining + queue == [draining[0]] + (draining[1..] + queue);
      assert handled + ([draining[0]] + (draining[1..] + queue)) == handled + [draining[0]] + (draining[1..] + queue);
      handled := handled + [draining[0]];
      draining := draining[1..];
    }

    /** The client at the head of the local queue is turned away or thrown away. */
    method Refuse(discard: bool)
      requires Valid() && draining != []
      modifies this`draining, this`handled, this`held, this`rejected, this`discarded
      ensures Valid()
      ensures draining == old(draining)[1..] && handled == old(handled) + [old(draining)[0]]
      ensures held == old(held) - {old(draining)[0]}
      ensures rejected == old(rejected) + (if discard then 0 else 1)
      ensures discarded == old(discarded) + (if discard then 1 else 0)
    {
      hide Good, Indexed, Armed, Accounted, Counted, OutcomesAgree, Charged;
      AccountedDrop(held, fdToSession, draining + queue, dying, wakeFd);
      var client := draining[0];
      Fetched(rejected + sessionsOpened + discarded);
      if discard {
        discarded := discarded + 1;
      } else {
        rejected := rejected + 1;
      }
      Close(client);
    }

    /** connectNonBlocking threw: the failure is charged to the backend that was picked. */
    method ChargeFailure(backend: nat)
      requires Valid() && backend < |failed|
      modifies this`connectFailures, this`failed
      ensures Valid()
      ensures failed == old(failed)[backend := old(failed)[backend] + 1]
      ensures connectFailures == old(connectFailures) + 1
    {
      hide Good, Indexed, Armed, Accounted, Counted, OutcomesAgree, InOrder, Sum;
      SumBump(failed, backend);
      failed := failed[backend := failed[backend] + 1];
      connectFailures := connectFailures + 1;
    }

    /** A session is built for the client but epoll refuses one of its descriptors: the session is
        destroyed again, its number used up, its connect outcome recorded. */
    method AbandonSession(upstreamFd: int, connecting: bool)
      requires Valid() && draining != [] && upstreamFd !in held
      modifies this`draining, this`handled, this`held, this`rejected, this`discarded, this`nextSessionId, this`outcomes
      ensures Valid()
      ensures draining == old(draining)[1..] && handled == old(handled) + [old(draining)[0]]
      ensures held == old(held) - {old(draining)[0]}
      ensures nextSessionId == old(nextSessionId) + 1 && rejected == old(rejected) + 1 && discarded == old(discarded)
    {
      hide Valid;
      BuildInVain(upstreamFd, connecting);
      Refuse(false);
    }

    method BuildInVain(upstreamFd: int, connecting: bool)
      requires Valid() && draining != [] && upstreamFd !in held
      modifies this`held, this`nextSessionId, this`outcomes
      ensures Valid() && held == old(held) && nextSessionId == old(nextSessionId) + 1
    {
      hide Valid, Start;
      held := held + {upstreamFd};
      Close(upstreamFd);
      assert held == old(held);
      UseUp(Settlements(Start(draining[0], upstreamFd, connecting, capacity, now).trace));
    }

    /** A session number is used up by an attempt with this outcome. */
    method UseUp(outcome: nat)
      requires Valid() && outcome <= 1
      modifies this`nextSessionId, this`outcomes
      ensures Valid() && nextSessionId == old(nextSessionId) + 1
    {
      hide Good, Indexed, Armed, Accounted, Counted, OutcomesAgree, Charged, InOrder;
      GoodLater(sessions, nextSessionId, capacity);
      CountedLater(sessions, leases, leaving, nextSessionId, activeSessions, sessionsOpened - sessionsClosed);
      OutcomeUsed(sessions, outcomes, nextSessionId, capacity, outcome);
      outcomes := outcomes[nextSessionId := outcome];
      nextSessionId := nextSessionId + 1;
    }

    /** The session is registered with epoll and published in the tables. */
    method PublishSession(upstreamFd: int, connecting: bool, backend: nat)
      requires Valid() && draining != [] && upstreamFd !in held && backend < |failed|
      modifies this`draining, this`handled, this`held, this`sessionsOpened, this`nextSessionId, this`outcomes
      modifies this`sessions, this`fdToSession, this`interests, this`leases, this`activeSessions
      ensures Valid()
      ensures draining == old(draining)[1..] && handled == old(handled) + [old(draining)[0]]
      ensures held == old(held) + {upstreamFd}
      ensures nextSessionId == old(nextSessionId) + 1 && sessionsOpened == old(sessionsOpened) + 1
      ensures activeSessions == old(activeSessions) + 1
      ensures Newcomer(old(Registered()), Registered(), now)
      ensures sessions
                == old(sessions)[old(nextSessionId) := Start(old(draining)[0], upstreamFd, connecting, capacity, now)]
      ensures leases == old(leases)[old(nextSessionId) := backend]
    {
      hide Accounted, Settled, Settlements, ClientEvents, UpstreamEvents, Armed, Indexed, Good, OutcomesAgree, Start;
      hide Sum, BuffersValid, Charged, InOrder, Counted, Newcomer;
      var id := nextSessionId;
      var s := Start(draining[0], upstreamFd, connecting, capacity, now);
      EntryPublished(Snapshot(), s, backend, now);
      EntryIsNew(Snapshot(), s, backend, now);
      Publish(id, s, backend);
    }

    /** The client is fetched, both descriptors are registered, the maps and the counters updated. */
    method Publish(id: nat, s: Session, backend: nat)
      requires BuffersValid(s) && id == nextSessionId
      requires draining != [] && InOrder(arrivals, handled, draining + queue, rejected + sessionsOpened + discarded)
      modifies this`draining, this`handled, this`held, this`sessionsOpened, this`nextSessionId, this`outcomes
      modifies this`sessions, this`fdToSession, this`interests, this`leases, this`activeSessions
      ensures held == old(held) + {s.upstreamFd} && outcomes == old(outcomes)[id := Settlements(s.trace)]
      ensures interests == old(interests)[s.clientFd := ClientEvents(s)][s.upstreamFd := UpstreamEvents(s)]
      ensures fdToSession == old(fdToSession)[s.clientFd := id][s.upstreamFd := id]
      ensures sessions == old(sessions)[id := s] && leases == old(leases)[id := backend]
      ensures nextSessionId == id + 1 && activeSessions == old(activeSessions) + 1
      ensures sessionsOpened == old(sessionsOpened) + 1
      ensures draining == old(draining)[1..] && handled == old(handled) + [old(draining)[0]]
      ensures draining + queue == (old(draining) + queue)[1..]
      ensures InOrder(arrivals, handled, draining + queue, rejected + sessionsOpened + discarded)
    {
      hide InOrder, Settlements, ClientEvents, UpstreamEvents, BuffersValid;
      Fetched(rejected + sessionsOpened + discarded);
      Register(id, s, backend);
    }

    method Register(id: nat, s: Session, backend: nat)
      requires BuffersValid(s) && id == nextSessionId
      modifies this`held, this`sessionsOpened, this`nextSessionId, this`outcomes
      modifies this`sessions, this`fdToSession, this`interests, this`leases, this`activeSessions
      ensures held == old(held) + {s.upstreamFd} && outcomes == old(outcomes)[id := Settlements(s.trace)]
      ensures interests == old(interests)[s.clientFd := ClientEvents(s)][s.upstreamFd := UpstreamEvents(s)]
      ensures fdToSession == old(fdToSession)[s.clientFd := id][s.upstreamFd := id]
      ensures sessions == old(sessions)[id := s] && leases == old(leases)[id := backend]
      ensures nextSessionId == id + 1 && activeSessions == old(activeSessions) + 1
      ensures sessionsOpened == old(sessionsOpened) + 1
    {
      nextSessionId := nextSessionId + 1;
      held := held + {s.upstreamFd};
      outcomes := outcomes[id := Settlements(s.trace)];
      interests := interests[s.clientFd := ClientEvents(s)];
      interests := interests[s.upstreamFd := UpstreamEvents(s)];
      fdToSession := fdToSession[s.clientFd := id];
      fdToSession := fdToSession[s.upstreamFd := id];
      sessions := sessions[id := s];
      leases := leases[id := backend];
      activeSessions := activeSessions + 1;
      sessionsOpened := sessionsOpened + 1;
    }

    /** createSession for the client at the head of the local queue: a session is opened exactly if
        nothing goes wrong. */
    method CreateSession(o: Opening) returns (created: bool)
      requires Valid() && draining != []
      modifies this`draining, this`handled, this`held, this`sessionsOpened, this`rejected, this`discarded
      modifies this`nextSessionId, this`outcomes
      modifies this`sessions, this`fdToSession, this`interests, this`leases, this`activeSessions, this`connectFailures
      modifies this`failed
      ensures Valid()
      ensures draining == old(draining)[1..] && handled == old(handled) + [old(draining)[0]]
      ensures created <==> o.Opened? && o.backend < |old(failed)| && o.fd !in old(held)
      ensures created ==>
                sessions == old(sessions)[old(nextSessionId) :=
                              Start(old(draining)[0], o.fd, o.connecting, capacity, now)]
      ensures created ==> leases == old(leases)[old(nextSessionId) := o.backend] && held == old(held) + {o.fd}
      ensures Seated(old(AtDesk()), old(held), old(draining)[0], o, AtDesk(), held, capacity, now)
      ensures connectFailures == old(connectFailures) + if Real(o, old(held), |old(failed)|).ConnectThrew? then 1 else 0
      ensures !created ==> sessions == old(sessions) && fdToSession == old(fdToSession) && rejected == old(rejected) + 1
      ensures sessionsOpened == old(sessionsOpened) + (if created then 1 else 0) && discarded == old(discarded)
      ensures activeSessions == old(activeSessions) + if created then 1 else 0
      ensures !created ==> held == old(held) - {old(draining)[0]}
      ensures !created ==> nextSessionId >= old(nextSessionId)
      ensures created ==> Newcomer(old(Registered()), Registered(), now) && rejected == old(rejected)
    {
      hide Valid, Newcomer, Start;
      match Real(o, held, |failed|)
      case NoBackend =>
        Refuse(false);
        return false;
      case ConnectThrew(backend) =>
        ChargeFailure(backend);
        Refuse(false);
        return false;
      case EpollRefused(_, fd, connecting) =>
        AbandonSession(fd, connecting);
        return false;
      case Opened(backend, fd, connecting) =>
        PublishSession(fd, connecting, backend);
        return true;
    }

    /** The client at the head of the local queue gets a session, is turned away or thrown away. */
    method ServeNext(o: Opening) returns (created: bool)
      requires Valid() && Follows() && draining != [] && (phase.Draining? || phase.LastDraining?)
      modifies this`draining, this`handled, this`held, this`sessionsOpened, this`rejected, this`discarded
      modifies this`nextSessionId, this`outcomes
      modifies this`sessions, this`fdToSession, this`interests, this`leases, this`activeSessions, this`connectFailures
      modifies this`failed
      modifies this`steps, this`phase
      ensures Valid() && draining == old(draining)[1..] && handled == old(handled) + [old(draining)[0]]
      ensures Newcomer(old(Registered()), Registered(), now) || StillListed(old(Registered()), Registered())
      ensures Follows() && phase == old(phase) && steps == old(steps) + [Dispatch.Serve(0, created)]
      ensures Dispatch.Takes(old(Image(phase)), Dispatch.Serve(0, created), Image(phase))
      ensures discarded == old(discarded) + if running then 0 else 1
      ensures if running then Seated(old(AtDesk()), old(held), old(draining)[0], o, AtDesk(), held, capacity, now)
              else AtDesk() == old(AtDesk())
    {
      hide Valid, Newcomer, StillListed, Dispatch.Takes, Dispatch.Lives, Seated, AtDesk;
      ghost var before := Image(phase);
      created := ServeClient(o);
      Dispatch.ServesOne(before, created);
      Record(before, Dispatch.Serve(0, created), phase);
    }

    method ServeClient(o: Opening) returns (created: bool)
      requires Valid() && draining != []
      modifies this`draining, this`handled, this`held, this`sessionsOpened, this`rejected, this`discarded
      modifies this`nextSessionId, this`outcomes
      modifies this`sessions, this`fdToSession, this`interests, this`leases, this`activeSessions, this`connectFailures
      modifies this`failed
      ensures Valid() && draining == old(draining)[1..] && handled == old(handled) + [old(draining)[0]]
      ensures Newcomer(old(Registered()), Registered(), now) || StillListed(old(Registered()), Registered())
      ensures sessionsOpened == old(sessionsOpened) + if created then 1 else 0
      ensures activeSessions == old(activeSessions) + if created then 1 else 0
      ensures discarded == old(discarded) + (if running then 0 else 1) && (created ==> running)
      ensures if running then Seated(old(AtDesk()), old(held), old(draining)[0], o, AtDesk(), held, capacity, now)
              else AtDesk() == old(AtDesk())
    {
      hide Valid, Newcomer, Seated;
      if !running {
        Refuse(true);
        return false;
      }
      created := CreateSession(o);
    }

    /** One client of the local queue, after other threads have had their turn: `at` are the descriptors
        that are open when the client is dealt with. */
    method DrainOne(o: Opening, reserved: set<int>) returns (ghost at: set<int>)
      requires Valid() && Follows() && draining != [] && (phase.Draining? || phase.LastDraining?)
      modifies this`queue, this`running, this`arrivals, this`signal, this`steps, this`phase, this`asked
      modifies this`draining, this`handled, this`held, this`sessionsOpened, this`rejected, this`discarded
      modifies this`nextSessionId, this`outcomes
      modifies this`sessions, this`fdToSession, this`interests, this`leases, this`activeSessions, this`connectFailures
      modifies this`failed
      ensures Valid() && draining == old(draining)[1..] && handled + draining == old(handled + draining)
      ensures Newcomer(old(Registered()), Registered(), now) || StillListed(old(Registered()), Registered())
      ensures Follows() && phase == old(phase) && signal >= old(signal)
      ensures Agree(at, old(held), reserved) && (running ==> old(running)) && (old(asked) ==> asked)
      ensures discarded == old(discarded) + if running then 0 else 1
      ensures if running then Seated(old(AtDesk()), at, old(draining)[0], o, AtDesk(), held, capacity, now)
              else AtDesk() == old(AtDesk())
    {
      hide Valid, Follows, Newcomer, StillListed, Dispatch.Takes, Agree, Seated, AtDesk;
      assert handled + [draining[0]] + draining[1..] == handled + draining;
      ghost var clients := OtherThreads(reserved);
      at := held;
      var created := ServeNext(o);
    }

    /** drainQueue takes the whole queue at once. */
    method TakeQueue()
      requires Valid() && Follows() && draining == [] && (phase.Swapping? || phase.LastSwapping?)
      modifies this`queue, this`draining, this`steps, this`phase
      ensures Valid() && draining == old(queue) && queue == []
      ensures Follows() && phase == if old(phase).Swapping? then Dispatch.Draining else Dispatch.LastDraining
      ensures Dispatch.Takes(old(Image(phase)), Dispatch.Swap(0), Image(phase))
    {
      hide Good, Indexed, Armed, Accounted, Counted, OutcomesAgree, InOrder, Charged, Dispatch.Lives;
      ghost var before := Image(phase);
      assert draining + queue == queue + [];
      draining := queue;
      queue := [];
      Record(before, Dispatch.Swap(0), if phase.Swapping? then Dispatch.Draining else Dispatch.LastDraining);
    }

    /** The local queue is empty. */
    ghost method Drained()
      requires Follows() && draining == [] && (phase.Draining? || phase.LastDraining?)
      modifies this`steps, this`phase
      ensures Follows() && phase == if old(phase).Draining? then Dispatch.Waiting else Dispatch.Discarding
    {
      hide Dispatch.Lives;
      Enter(Dispatch.Drained(0), if phase.Draining? then Dispatch.Waiting else Dispatch.Discarding);
    }

    /** Fetches everything queued at once, then deals with it one client at a time, as the answers say.
        A client is only thrown away by a worker that has been stopped. */
    method DrainQueue(openings: seq<Opening>)
      requires Valid() && Follows() && draining == [] && (phase.Swapping? || phase.LastSwapping?)
      modifies this`queue, this`running, this`arrivals, this`signal, this`steps, this`phase, this`asked
      modifies this`draining, this`handled, this`held, this`sessionsOpened, this`rejected, this`discarded
      modifies this`nextSessionId, this`outcomes
      modifies this`sessions, this`fdToSession, this`interests, this`leases, this`activeSessions, this`connectFailures
      modifies this`failed
      ensures Valid() && draining == []
      ensures handled == old(handled + queue)
      ensures QueueServed(old(AtDesk()), old(held), old(queue), openings, AtDesk(), discarded - old(discarded), running,
                          capacity, now)
      ensures Carried(old(Registered()), Registered(), [], now)
      ensures Follows() && phase == if old(phase).Swapping? then Dispatch.Waiting else Dispatch.Discarding
      ensures signal >= old(signal) && (running ==> old(running)) && (old(asked) ==> asked)
    {
      hide Valid, Follows, Good, Carried, Newcomer, StillListed, Image, Dispatch.Takes, UpTo, Seated, QueueServed;
      hide AtDesk, Agree, Fds, Later, AnswerTo;
      ValidIsGood();
      CarriedStart(Registered(), now);
      ghost var desk, open := AtDesk(), held;
      UpToBegins(desk, open, queue, openings, running, capacity, now);
      var clients, k := queue, 0;
      TakeQueue();
      while draining != []
        invariant Valid() && Follows() && signal >= old(signal) && (running ==> old(running)) && (old(asked) ==> asked)
        invariant phase == if old(phase).Swapping? then Dispatch.Draining else Dispatch.LastDraining
        invariant handled + draining == old(handled + queue)
        invariant k <= |clients| && draining == clients[k..]
        invariant UpTo(desk, open, clients, openings, k, discarded - old(discarded), AtDesk(), held, running,
                       capacity, now)
        invariant Carried(old(Registered()), Registered(), [], now)
        decreases |draining|
      {
        ghost var mid, was, had, dropped := Registered(), AtDesk(), held, discarded - old(discarded);
        FreshNumber();
        ghost var ran := running;
        ghost var at := DrainOne(AnswerTo(openings, k), Fds(Later(openings, k)));
        UpToNext(desk, open, clients, openings, k, dropped, was, had, ran, at, AtDesk(), held, running, capacity, now);
        k := k + 1;
        if Newcomer(mid, Registered(), now) {
          CarriedNewcomer(old(Registered()), mid, Registered(), [], now);
        } else {
          CarriedLater(old(Registered()), mid, Registered(), [], now);
        }
      }
      Drained();
      UpToEnds(desk, open, clients, openings, discarded - old(discarded), AtDesk(), held, running, capacity, now);
    }

    lemma FreshNumber()
      requires Valid()
      ensures AtDesk().next !in AtDesk().sessions
    {
      NumbersAreOld();
    }

    /** Reads the eventfd until it is empty. */
    method ReadSignal()
      requires Follows() && phase.Waiting? && signal > 0
      modifies this`signal, this`steps, this`phase
      ensures Follows() && phase.Swapping? && signal == 0
    {
      hide Dispatch.Lives;
      Enter(Dispatch.Wake(0), Dispatch.Reading);
      while signal > 0
        invariant Follows() && phase.Reading?
      {
        ghost var before := Image(phase);
        signal := 0;
        Record(before, Dispatch.Read(0), phase);
      }
      Enter(Dispatch.ReadEmpty(0), Dispatch.Swapping);
    }

    /** The entry of the eventfd in a batch: everybody handed over so far is dealt with. */
    method WakeUp(openings: seq<Opening>)
      requires Valid() && Follows() && draining == [] && phase.Waiting? && signal > 0
      modifies this`queue, this`running, this`arrivals, this`signal, this`steps, this`phase, this`asked
      modifies this`draining, this`handled, this`held, this`sessionsOpened, this`rejected, this`discarded
      modifies this`nextSessionId, this`outcomes
      modifies this`sessions, this`fdToSession, this`interests, this`leases, this`activeSessions, this`connectFailures
      modifies this`failed
      ensures Valid() && Follows() && draining == [] && phase.Waiting?
      ensures Carried(old(Registered()), Registered(), [], now)
      ensures handled == old(handled + queue) == old(arrivals) && (running ==> old(running))
      ensures QueueServed(old(AtDesk()), old(held), old(queue), openings, AtDesk(), discarded - old(discarded), running,
                          capacity, now)
    {
      hide Valid, Follows, Carried, QueueServed;
      EverybodyWaits();
      ReadSignal();
      DrainQueue(openings);
    }

    lemma EverybodyWaits()
      requires Valid() && draining == []
      ensures arrivals == handled + queue
    {
      hide Good, Indexed, Armed, Accounted, Counted, OutcomesAgree, Charged;
      assert draining + queue == queue;
    }

    /** One entry of a batch, of which `done` has been handled since the tables were `before`. */
    method HandleEntry(r: Ready, ghost before: Registry, ghost done: seq<Ready>)
      requires Valid() && Follows() && draining == [] && phase.Waiting?
      requires Carried(before, Registered(), done, now) && Indexed(before.index, before.sessions)
      requires if r.fd == wakeFd then signal > 0 else r.fd in before.index
      modifies this`queue, this`running, this`arrivals, this`signal, this`steps, this`phase, this`asked
      modifies this`draining, this`handled, this`held, this`sessionsOpened, this`rejected, this`discarded
      modifies this`nextSessionId, this`outcomes
      modifies this`sessions, this`fdToSession, this`interests, this`leases, this`activeSessions, this`connectFailures
      modifies this`failed
      ensures Valid() && Follows() && draining == [] && phase.Waiting?
      ensures Carried(before, Registered(), done + [r], now) && (running ==> old(running))
      ensures r.fd == wakeFd ==>
                && handled == old(handled + queue) == old(arrivals)
                && QueueServed(old(AtDesk()), old(held), old(queue), r.openings, AtDesk(), discarded - old(discarded),
                               running, capacity, now)
      ensures r.fd != wakeFd ==>
                && signal == old(signal) && handled == old(handled) && discarded == old(discarded)
                && held == old(held) && arrivals == old(arrivals) && |failed| == |old(failed)|
                && nextSessionId == old(nextSessionId) && rejected == old(rejected) && leases == old(leases)
                && sessionsOpened == old(sessionsOpened) && sessions.Keys == old(sessions).Keys
                && forall id | id in sessions && id !in before.sessions :: sessions[id] == old(sessions)[id]
    {
      hide Valid, Carried, Indexed, Follows, Image, QueueServed, AtDesk;
      ghost var mid := Registered();
      TablesAgree();
      if r.fd == wakeFd {
        CarriedSkip(before, mid, done, r, now);
        WakeUp(r.openings);
        CarriedThen(before, mid, Registered(), done + [r], now);
      } else {
        DeliverEntry(r, before, done);
      }
    }

    lemma TablesAgree()
      requires Valid()
      ensures Indexed(fdToSession, sessions) && wakeFd !in fdToSession
    {
      hide Good, Indexed, Armed, Accounted, Counted, OutcomesAgree, InOrder, Charged;
      WakeIsNobodys(held, fdToSession, draining + queue, dying, wakeFd);
    }

    /** An entry that names a session's descriptor, or one that was a session's when the batch began. */
    method DeliverEntry(r: Ready, ghost before: Registry, ghost done: seq<Ready>)
      requires Valid() && r.fd in before.index
      requires Carried(before, Registered(), done, now) && Indexed(before.index, before.sessions)
      modifies this`sessions, this`interests, this`connectFailures, this`failed, this`outcomes
      ensures Valid() && Carried(before, Registered(), done + [r], now)
      ensures |failed| == |old(failed)| && sessions.Keys == old(sessions).Keys
      ensures forall id | id in sessions && id !in before.sessions :: sessions[id] == old(sessions)[id]
    {
      hide Valid, Carried, Indexed, Deliver, BuffersValid;
      ghost var mid := Registered();
      TablesAgree();
      CarriedDelivery(before, mid, done, r, now);
      if r.fd !in fdToSession || sessions[fdToSession[r.fd]].closing {
        CarriedSkip(before, mid, done, r, now);
      } else {
        HandleReady(r);
      }
    }

    /** The next entry of a batch, after other threads have had their turn. */
    method HandleNext(r: Ready, rest: seq<Ready>, ghost before: Registry, ghost done: seq<Ready>, ghost start: Ledger)
      requires Valid() && Follows() && draining == [] && phase.Waiting?
      requires Carried(before, Registered(), done, now) && Indexed(before.index, before.sessions)
      requires r.fd == wakeFd || r.fd in before.index
      requires r.fd == wakeFd ==> signal > 0 && !Woken(done, wakeFd)
      requires InBatch(start, Books(), done, [r] + rest, wakeFd, capacity, now)
      requires start.desk.sessions == before.sessions
      modifies this`queue, this`running, this`arrivals, this`signal, this`steps, this`phase, this`asked
      modifies this`draining, this`handled, this`held, this`sessionsOpened, this`rejected, this`discarded
      modifies this`nextSessionId, this`outcomes
      modifies this`sessions, this`fdToSession, this`interests, this`leases, this`activeSessions, this`connectFailures
      modifies this`failed
      ensures Valid() && Follows() && draining == [] && phase.Waiting?
      ensures Carried(before, Registered(), done + [r], now)
      ensures InBatch(start, Books(), done + [r], rest, wakeFd, capacity, now)
      ensures r.fd != wakeFd ==> signal >= old(signal)
    {
      hide Valid, Follows, Image, Good, Indexed, Carried, InBatch, QueueServed, Agree, Fds, OpeningsIn, Woken;
      ghost var b := Books();
      ghost var clients := OtherThreads(Fds(OpeningsIn([r] + rest, wakeFd)));
      assert b.arrivals <= arrivals;
      ghost var c := Books();
      BatchMeanwhile(start, b, c, done, [r] + rest, wakeFd, capacity, now);
      ghost var waiting := queue;
      NumbersAreOld();
      HandleEntry(r, before, done);
      if r.fd == wakeFd {
        EverybodyWaits();
        BatchWakes(start, c, Books(), done, r, rest, waiting, wakeFd, capacity, now);
      } else {
        BatchDelivers(start, c, Books(), done, r, rest, wakeFd, capacity, now);
      }
    }

    /** All entries of one epoll batch. Descriptors are not closed before the batch is over, so no
        entry can reach a session that was not its descriptor's owner when epoll_wait returned; and if
        the eventfd is among them, everybody handed over before has been dealt with, in order and as
        the answers say. */
    method ProcessBatch(batch: seq<Ready>)
      requires Valid() && Follows() && draining == [] && phase.Waiting?
      requires (forall r | r in batch :: r.fd in interests) && Wakes(batch, wakeFd, signal)
      modifies this`queue, this`running, this`arrivals, this`signal, this`steps, this`phase, this`asked
      modifies this`draining, this`handled, this`held, this`sessionsOpened, this`rejected, this`discarded
      modifies this`nextSessionId, this`outcomes
      modifies this`sessions, this`fdToSession, this`interests, this`leases, this`activeSessions, this`connectFailures
      modifies this`failed
      ensures Valid() && Follows() && draining == [] && phase.Waiting?
      ensures Carried(old(Registered()), Registered(), batch, now)
      ensures (exists r | r in batch :: r.fd == wakeFd) ==> old(arrivals) <= handled
      ensures InBatch(old(Books()), Books(), batch, [], wakeFd, capacity, now)
    {
      hide Valid, Follows, Image, Wakes, Good, Indexed, Carried, InBatch, OpeningsIn, Woken;
      BatchBegins();
      BatchOpens(Books(), batch, wakeFd, capacity, now);
      ghost var first := signal;
      assert batch[..0] == [] && batch[0..] == batch;
      for i := 0 to |batch|
        invariant Valid() && Follows() && draining == [] && phase.Waiting?
        invariant Carried(old(Registered()), Registered(), batch[..i], now) && Wakes(batch[i..], wakeFd, signal)
        invariant InBatch(old(Books()), Books(), batch[..i], batch[i..], wakeFd, capacity, now)
      {
        ghost var was := signal;
        var r := batch[i];
        assert batch[..i + 1] == batch[..i] + [r] && batch[i..] == [r] + batch[i + 1..] && r in batch;
        WakesNow(batch, i, wakeFd, first, signal);
        HandleNext(r, batch[i + 1..], old(Registered()), batch[..i], old(Books()));
        WakesLater(batch, i, wakeFd, was, if r.fd == wakeFd then was else signal);
        if r.fd == wakeFd {
          NotNamed(batch[i + 1..], wakeFd, signal);
        }
      }
      assert batch[..|batch|] == batch && batch[|batch|..] == [];
      WokenMeansFetched(old(Books()), Books(), batch, wakeFd, capacity, now);
    }

    lemma NumbersAreOld()
      requires Valid()
      ensures forall id | id in sessions :: id < nextSessionId
    {
      hide Good, Indexed, Armed, Accounted, Counted, OutcomesAgree, InOrder, Charged;
      NumbersAreUsed(sessions, nextSessionId, capacity);
    }

    lemma BatchBegins()
      requires Valid()
      ensures Good(sessions, nextSessionId, capacity) && Indexed(fdToSession, sessions)
      ensures forall fd | fd in interests :: fd == wakeFd || fd in fdToSession
      ensures Carried(Registered(), Registered(), [], now)
    {
      hide Good, Indexed, Carried, Accounted, Counted, OutcomesAgree, InOrder, Charged;
      CarriedStart(Registered(), now);
      WatchedIsIndexed(interests, fdToSession, sessions, wakeFd);
    }

    /** Out of epoll and out of the tables; the descriptors stay open until the last reference goes. */
    method CloseSession(id: nat)
      requires Valid() && Follows() && (phase.Waiting? || phase.Closing?)
      modifies this`interests, this`fdToSession, this`sessions, this`leaving, this`activeSessions, this`sessionsClosed
      modifies this`dying, this`steps, this`phase
      ensures Valid()
      ensures sessions == old(sessions) - {id}
      ensures id in old(sessions) ==>
                dying == old(dying) + {old(sessions)[id].clientFd, old(sessions)[id].upstreamFd}
                  && sessionsClosed == old(sessionsClosed) + 1
      ensures Follows() && phase == old(phase)
      ensures id in old(sessions) ==> Dispatch.Takes(old(Image(phase)), Dispatch.CloseOne(0), Image(phase))
    {
      hide Valid, Dispatch.Takes, Dispatch.Lives;
      if id !in sessions {
        return;
      }
      ghost var before := Image(phase);
      Withdraw(id);
      Dispatch.ClosesOne(before);
      Record(before, Dispatch.CloseOne(0), phase);
    }

    method Withdraw(id: nat)
      requires Valid() && id in sessions
      modifies this`interests, this`fdToSession, this`sessions, this`leaving, this`activeSessions, this`sessionsClosed
      modifies this`dying
      ensures Valid() && sessions == old(sessions) - {id}
      ensures dying == old(dying) + {old(sessions)[id].clientFd, old(sessions)[id].upstreamFd}
      ensures sessionsClosed == old(sessionsClosed) + 1 && activeSessions == old(activeSessions) - 1
    {
      hide Good, Indexed, Armed, Accounted, Counted, OutcomesAgree, InOrder, Charged;
      EntryClosed(Snapshot(), id);
      Unlist(id, sessions[id].clientFd, sessions[id].upstreamFd);
    }

    method Unlist(id: nat, clientFd: int, upstreamFd: int)
      requires activeSessions > 0
      modifies this`interests, this`fdToSession, this`sessions, this`leaving, this`activeSessions, this`sessionsClosed
      modifies this`dying
      ensures interests == old(interests) - {clientFd, upstreamFd}
      ensures fdToSession == old(fdToSession) - {clientFd, upstreamFd}
      ensures sessions == old(sessions) - {id} && leaving == old(leaving) + {id}
      ensures dying == old(dying) + {clientFd, upstreamFd}
      ensures activeSessions == old(activeSessions) - 1 && sessionsClosed == old(sessionsClosed) + 1
    {
      interests := interests - {clientFd, upstreamFd};
      fdToSession := fdToSession - {clientFd, upstreamFd};
      sessions := sessions - {id};
      leaving := leaving + {id};
      activeSessions := activeSessions - 1;
      sessionsClosed := sessionsClosed + 1;
      dying := dying + {clientFd, upstreamFd};
    }

    method CloseAll(ids: set<nat>)
      requires Valid() && Follows() && (phase.Waiting? || phase.Closing?)
      modifies this`interests, this`fdToSession, this`sessions, this`leaving, this`activeSessions, this`sessionsClosed
      modifies this`dying, this`steps, this`phase
      ensures Valid() && Follows() && phase == old(phase)
      ensures sessions == old(sessions) - ids
    {
      hide Valid, Follows, Dispatch.Takes, Image;
      var rest := ids;
      while rest != {}
        invariant Valid() && Follows() && phase == old(phase) && rest <= ids
        invariant sessions == old(sessions) - (ids - rest)
        decreases rest
      {
        var id :| id in rest;
        CloseSession(id);
        rest := rest - {id};
      }
    }

    /** The last references go: both descriptors of every closed session are closed, all of them
        still open and none of them listed anywhere else, and its lease goes back. */
    method Destroy()
      requires Valid()
      modifies this`held, this`dying, this`leases, this`leaving
      ensures Valid() && dying == {} && held == old(held) - old(dying) && old(dying) <= old(held)
      ensures leaving == {} && leases == old(leases) - old(leaving) && leases.Keys == sessions.Keys
    {
      hide Good, Indexed, Armed, Accounted, Counted, OutcomesAgree, InOrder, Charged;
      EntriesDestroyed(Snapshot());
      held := held - dying;
      dying := {};
      leases := leases - leaving;
      leaving := {};
    }

    /** A connect attempt has taken too long. The mark stands for its place in the expired list. */
    method GiveUp(id: nat)
      requires Valid() && id in sessions && sessions[id].connecting && !sessions[id].closing
      modifies this`sessions, this`connectFailures, this`failed, this`outcomes
      ensures Valid()
      ensures sessions == old(sessions)[id := GivenUp(old(sessions)[id])]
      ensures connectFailures == old(connectFailures) + 1
    {
      hide Settled, GivenUp, Accounted, InOrder, Good, Indexed, Armed, Sum, OutcomesAgree, Counted, Charged;
      EntryGivenUp(Snapshot(), id);
      RecordOutcome(id, false);
      ChargedStill(old(Snapshot()), connectFailures, failed);
      sessions := sessions[id := GivenUp(sessions[id])];
    }

    /** Is this session overdue? If its connect is still pending, that is now a failure. */
    method Examine(id: nat) returns (overdue: bool)
      requires Valid() && id in sessions && !sessions[id].closing
      modifies this`sessions, this`connectFailures, this`failed, this`outcomes
      ensures Valid() && sessions.Keys == old(sessions).Keys
      ensures overdue == Overdue(old(sessions)[id], now, idleTimeout, connectTimeout)
      ensures forall other | other in sessions && (other != id || !overdue) :: sessions[other] == old(sessions)[other]
      ensures connectFailures == old(connectFailures) +
                if ConnectTimedOut(old(sessions)[id], now, connectTimeout) then 1 else 0
    {
      hide Good, Indexed, Armed, Accounted, Counted, OutcomesAgree, InOrder, Charged;
      if ConnectTimedOut(sessions[id], now, connectTimeout) {
        GiveUp(id);
        return true;
      }
      return IdleFor(sessions[id], now, idleTimeout);
    }

    /** Lists the sessions that are overdue; each pending connect among them is a failure. */
    method CollectExpired() returns (expired: set<nat>)
      requires Valid() && forall id | id in sessions :: !sessions[id].closing
      modifies this`sessions, this`connectFailures, this`failed, this`outcomes
      ensures Valid() && sessions.Keys == old(sessions).Keys
      ensures expired == set id | id in old(sessions) && Overdue(old(sessions)[id], now, idleTimeout, connectTimeout)
      ensures forall id | id in old(sessions) && id !in expired :: sessions[id] == old(sessions)[id]
      ensures connectFailures
                == old(connectFailures) +
                   |set id | id in old(sessions) && ConnectTimedOut(old(sessions)[id], now, connectTimeout)|
    {
      hide Valid, Overdue, ConnectTimedOut;
      ghost var late: set<nat> := {};
      expired := {};
      var rest := sessions.Keys;
      while rest != {}
        invariant Valid() && rest <= old(sessions).Keys && sessions.Keys == old(sessions).Keys
        invariant forall id ::
                    id in expired <==>
                    id in old(sessions) && id !in rest && Overdue(old(sessions)[id], now, idleTimeout, connectTimeout)
        invariant forall id | id in old(sessions) && id !in expired :: sessions[id] == old(sessions)[id]
        invariant forall id ::
                    id in late <==>
                      id in old(sessions) && id !in rest && ConnectTimedOut(old(sessions)[id], now, connectTimeout)
        invariant connectFailures == old(connectFailures) + |late|
        decreases rest
      {
        var id :| id in rest;
        rest := rest - {id};
        assert sessions[id] == old(sessions)[id];
        if ConnectTimedOut(sessions[id], now, connectTimeout) {
          late := late + {id};
        }
        var overdue := Examine(id);
        if overdue {
          expired := expired + {id};
        }
      }
      assert late == set id | id in old(sessions) && ConnectTimedOut(old(sessions)[id], now, connectTimeout);
    }

    /** Closes exactly the sessions that are overdue. */
    method SweepIdleSessions()
      requires Valid() && Follows() && phase.Waiting? && forall id | id in sessions :: !sessions[id].closing
      modifies this`interests, this`fdToSession, this`sessions, this`leaving, this`activeSessions, this`sessionsClosed
      modifies this`dying, this`steps, this`phase
      modifies this`connectFailures, this`failed, this`outcomes
      ensures Valid() && Follows() && phase.Waiting?
      ensures sessions
                == map id | id in old(sessions) && !Overdue(old(sessions)[id], now, idleTimeout, connectTimeout)
                     :: old(sessions)[id]
      ensures connectFailures
                == old(connectFailures) +
                   |set id | id in old(sessions) && ConnectTimedOut(old(sessions)[id], now, connectTimeout)|
    {
      hide Valid, Follows, ConnectTimedOut;
      var expired := CollectExpired();
      CloseAll(expired);
    }

    /** epoll_wait: after some time, any entries for registered descriptors, handled without time
        passing; the eventfd is reported once at most, and only if it has been written to. */
    method EpollWait(waited: nat) returns (batch: seq<Ready>)
      modifies this`reported
      ensures (forall r | r in batch :: r.fd in interests && r.answers.now == now + waited)
      ensures Wakes(batch, wakeFd, signal) && reported == old(reported) + [batch]
    {
      var at := now + waited;
      assert (forall r: Ready | r in [] :: r.fd in interests && r.answers.now == at) && Wakes([], wakeFd, signal);
      batch :| (forall r | r in batch :: r.fd in interests && r.answers.now == at) && Wakes(batch, wakeFd, signal);
      reported := reported + [batch];
    }

    /** Removes what the batch has marked, now that no entry of it is left. */
    method CloseMarked()
      requires Valid() && Follows() && phase.Waiting?
      modifies this`interests, this`fdToSession, this`sessions, this`leaving, this`activeSessions, this`sessionsClosed
      modifies this`dying, this`steps, this`phase
      ensures Valid() && Follows() && phase.Waiting?
      ensures sessions == map id | id in old(sessions) && !old(sessions)[id].closing :: old(sessions)[id]
    {
      hide Valid, Follows;
      CloseAll(set id | id in sessions && sessions[id].closing);
    }

    /** What holds between two rounds of the loop. */
    ghost predicate Idle()
      reads this
    {
      && Valid() && Follows() && phase.Waiting? && draining == [] && dying == {} && leaving == {}
      && (forall id | id in sessions :: !sessions[id].closing)
      && idleTimeout > 0 && connectTimeout > 0
      && lastSweep <= now
      && Punctual(sessions, lastSweep, idleTimeout, connectTimeout)
    }

    /** After a batch: remove what it marked, sweep once a second, let go of what was removed. */
    method TidyUp() returns (swept: bool)
      requires Valid() && Follows() && phase.Waiting? && draining == []
      requires lastSweep <= now && idleTimeout > 0 && connectTimeout > 0
      requires Punctual(sessions, lastSweep, idleTimeout, connectTimeout)
      modifies this`interests, this`fdToSession, this`sessions, this`leaving, this`activeSessions, this`sessionsClosed
      modifies this`dying, this`steps, this`phase
      modifies this`connectFailures, this`failed, this`outcomes, this`held, this`leases, this`lastSweep
      ensures Idle()
      ensures swept == (now - old(lastSweep) >= 1000) && lastSweep == if swept then now else old(lastSweep)
      ensures sessions
                == map id | id in old(sessions) && !old(sessions)[id].closing
                            && !(swept && Overdue(old(sessions)[id], now, idleTimeout, connectTimeout))
                     :: old(sessions)[id]
      ensures leases.Keys == sessions.Keys
      ensures forall id | id in sessions && id in old(leases) :: leases[id] == old(leases)[id]
    {
      hide Valid, Follows, Overdue, Punctual, Image;
      ghost var before, was := sessions, lastSweep;
      CloseMarked();
      swept := now - lastSweep >= 1000;
      if swept {
        SweepIdleSessions();
        lastSweep := now;
      }
      Destroy();
      SurvivorsArePunctual(before, sessions, was, now, swept, idleTimeout, connectTimeout);
    }

    /** One round of the loop: wait, handle the batch, remove what it marked, sweep once a second.
        A session survives exactly if its own entries leave it open and no sweep finds it overdue. If
        the batch names the eventfd, everybody handed over before has been dealt with, in order and
        as the answers say, and nobody has been thrown away by a worker that is still running. */
    method Round(waited: nat, batch: seq<Ready>) returns (swept: bool)
      requires Idle()
      requires (forall r | r in batch :: r.fd in interests && r.answers.now == now + waited)
      requires Wakes(batch, wakeFd, signal)
      modifies this
      ensures Idle() && now == old(now) + waited && lost == old(lost)
      ensures reported == old(reported) && processed == old(processed) + [batch] && expired == old(expired)
      ensures swept == (now - old(lastSweep) >= 1000) && lastSweep == if swept then now else old(lastSweep)
      ensures now - lastSweep < 1000
      ensures old(now) - old(lastSweep) < 1000 && waited <= 1000 ==>
                NobodyLate(old(sessions), now, idleTimeout, connectTimeout)
      ensures Survived(old(sessions), batch, sessions, swept, now, idleTimeout, connectTimeout)
      ensures JustOpened(old(sessions), sessions, capacity, now)
      ensures BatchDone(old(Books()), Books(), batch, wakeFd, capacity, now)
    {
      hide Valid, Follows, Wakes, BatchDone, Image, Punctual, Received, Survived, NobodyLate, JustOpened, Idle, Books;
      IdleMeans();
      PunctualLater(sessions, lastSweep, now + waited, idleTimeout, connectTimeout);
      BooksHaveSessions();
      now := now + waited;
      HandleBatch(batch);
      swept := FinishRound(batch, old(Books()));
    }

    lemma IdleMeans()
      requires Idle()
      ensures Valid() && Follows() && phase.Waiting? && draining == []
      ensures idleTimeout > 0 && connectTimeout > 0 && lastSweep <= now
      ensures Punctual(sessions, lastSweep, idleTimeout, connectTimeout)
    {
      hide Valid, Follows, Punctual;
    }

    lemma BooksHaveSessions()
      ensures Books().desk.sessions == sessions && Books().running == running
    {
    }

    method FinishRound(batch: seq<Ready>, ghost start: Ledger) returns (swept: bool)
      requires Valid() && Follows() && phase.Waiting? && draining == []
      requires lastSweep <= now && idleTimeout > 0 && connectTimeout > 0
      requires Punctual(sessions, lastSweep, idleTimeout, connectTimeout)
      requires Received(start.desk.sessions, batch, sessions, now, idleTimeout)
      requires JustOpened(start.desk.sessions, sessions, capacity, now)
      requires BatchDone(start, Books(), batch, wakeFd, capacity, now)
      modifies this`interests, this`fdToSession, this`sessions, this`leaving, this`activeSessions, this`sessionsClosed
      modifies this`dying, this`steps, this`phase
      modifies this`connectFailures, this`failed, this`outcomes, this`held, this`leases, this`lastSweep
      ensures Idle()
      ensures swept == (now - old(lastSweep) >= 1000) && lastSweep == if swept then now else old(lastSweep)
      ensures Survived(start.desk.sessions, batch, sessions, swept, now, idleTimeout, connectTimeout)
      ensures JustOpened(start.desk.sessions, sessions, capacity, now)
      ensures BatchDone(start, Books(), batch, wakeFd, capacity, now)
    {
      hide Valid, Follows, Overdue, BatchDone, Image, Punctual, Received, Survived, JustOpened;
      ghost var received, books := sessions, Books();
      swept := TidyUp();
      SurvivorsAre(start.desk.sessions, batch, received, sessions, swept, now, idleTimeout, connectTimeout);
      NewcomersStay(start.desk.sessions, received, sessions, swept, capacity, now, idleTimeout, connectTimeout);
      DoneLater(start, books, Books(), batch, wakeFd, capacity, now);
    }

    /** The batch of one round, and what it means for the sessions and for the clients. */
    method HandleBatch(batch: seq<Ready>)
      requires Valid() && Follows() && draining == [] && phase.Waiting?
      requires (forall r | r in batch :: r.fd in interests && r.answers.now == now) && Wakes(batch, wakeFd, signal)
      requires idleTimeout > 0 && connectTimeout > 0 && lastSweep <= now
      requires Punctual(sessions, lastSweep, idleTimeout, connectTimeout)
      modifies this`queue, this`running, this`arrivals, this`signal, this`steps, this`phase, this`asked
      modifies this`processed
      modifies this`draining, this`handled, this`held, this`sessionsOpened, this`rejected, this`discarded
      modifies this`nextSessionId, this`outcomes
      modifies this`sessions, this`fdToSession, this`interests, this`leases, this`activeSessions, this`connectFailures
      modifies this`failed
      ensures Valid() && Follows() && draining == [] && phase.Waiting? && processed == old(processed) + [batch]
      ensures Punctual(sessions, lastSweep, idleTimeout, connectTimeout)
      ensures Received(old(sessions), batch, sessions, now, idleTimeout)
      ensures JustOpened(old(sessions), sessions, capacity, now)
      ensures BatchDone(old(Books()), Books(), batch, wakeFd, capacity, now)
    {
      hide Valid, Follows, DeliverAll, BuffersValid, Overdue, IdleFor, Start, Good, Wakes, InBatch, BatchDone;
      hide MovesIn, Carried, Image, Punctual, AtDesk;
      ghost var before, books := Registered(), Books();
      ValidIsGood();
      IdleInBatch(before, batch, now, idleTimeout);
      ProcessBatch(batch);
      processed := processed + [batch];
      BatchMeans(books, Books(), batch, wakeFd, capacity, now);
      CarriedPunctual(before, Registered(), batch, now, lastSweep, idleTimeout, connectTimeout);
      CarriedMeans(before, Registered(), batch, now);
    }

    lemma ValidIsGood()
      requires Valid()
      ensures Good(sessions, nextSessionId, capacity)
    {
    }

    /** The whole life of the worker: rounds until it is asked to stop or epoll fails, then the
        clean-up. `waits` is what epoll_wait does as long as the process lets the worker run: every
        batch it returns is handled, until another thread asks for the stop. On every path the tables
        end up empty, every client taken over has been rejected, opened or discarded, every session
        opened has been closed, and the wake descriptor is the only one left to close. Unless epoll
        failed under it, what the worker did is a schedule of Dispatch, from launch to stop. */
    method Run(waits: seq<Wait>, openings: seq<Opening>) returns (turns: nat, failed: bool)
      requires Idle() && processed == reported
      modifies this
      ensures processed == reported && turns <= |waits|
      ensures |reported| == |old(reported)| + Returned(waits[..turns]) && now == old(now) + Elapsed(waits[..turns])
      ensures turns == |waits| || (failed && waits[turns].Fails?) || asked || old(expired)
      ensures Valid()
      ensures sessions == map[] && leases == map[] && fdToSession == map[] && interests.Keys == {wakeFd}
      ensures activeSessions == 0
      ensures queue == draining == [] && held == {wakeFd}
      ensures handled == arrivals && |arrivals| == rejected + sessionsOpened + discarded
      ensures sessionsOpened == sessionsClosed
      ensures lost ==> old(lost) || failed
      ensures !lost ==> !running && Dispatch.Lives(backlog, steps, Image(Dispatch.Stopped))
    {
      hide Valid, Follows, Punctual, Dispatch.Lives, Image, Elapsed, Returned;
      turns, failed := Loop(waits);
      CleanUp(openings);
      StoppedAtTheEnd();
    }

    lemma StoppedAtTheEnd()
      requires Follows() && phase.Stopped?
      ensures !lost ==> !running && Dispatch.Lives(backlog, steps, Image(Dispatch.Stopped))
    {
      hide Dispatch.Lives;
      if !lost {
        Dispatch.LifeIsOrderly(backlog, steps, Image(phase));
      }
    }

    method Loop(waits: seq<Wait>) returns (turns: nat, failed: bool)
      requires Idle() && processed == reported
      modifies this
      ensures processed == reported && turns <= |waits|
      ensures |reported| == |old(reported)| + Returned(waits[..turns]) && now == old(now) + Elapsed(waits[..turns])
      ensures turns == |waits| || (failed && waits[turns].Fails?) || asked || old(expired)
      ensures Valid() && Follows() && phase.LastSwapping? && draining == [] && dying == {} && leaving == {}
      ensures lost ==> old(lost) || failed
    {
      hide Valid, Follows, Punctual, Image, Elapsed, Returned;
      turns, failed := 0, false;
      NoWaitYet(waits);
      StoppedBySomebody();
      while running
        invariant Idle() && lost == old(lost) && processed == reported && turns <= |waits|
        invariant |reported| == |old(reported)| + Returned(waits[..turns]) && now == old(now) + Elapsed(waits[..turns])
        invariant (running || asked || expired) && expired == old(expired)
        decreases |waits| - turns
      {
        if turns == |waits| {
          Stop(false);                 // at the latest now
          break;
        }
        OneMoreWait(waits, turns);
        match waits[turns] {
          case Interrupts(waited) =>
            now := now + waited;
          case Fails =>
            failed := true;
            break;
          case Returns(waited) =>
            Turn(waited);
            StoppedBySomebody();
        }
        turns := turns + 1;
      }
      LeaveLoop();
    }

    lemma NoWaitYet(waits: seq<Wait>)
      ensures Elapsed(waits[..0]) == 0 == Returned(waits[..0])
    {
    }

    lemma StoppedBySomebody()
      requires Follows()
      ensures running || asked || expired
    {
      hide Dispatch.Lives;
    }

    method Turn(waited: nat)
      requires Idle() && processed == reported
      modifies this
      ensures Idle() && processed == reported && lost == old(lost)
      ensures |reported| == |old(reported)| + 1 && now == old(now) + waited && expired == old(expired)
    {
      hide Valid, Follows, Punctual, Image, Wakes, Agree, Survived, JustOpened, NobodyLate, Books, BatchDone;
      var batch := EpollWait(waited);
      var swept := Round(waited, batch);
      ghost var clients := OtherThreads({});
    }

    ghost method LeaveLoop()
      requires Follows() && phase.Waiting?
      modifies this`steps, this`phase, this`lost
      ensures Follows() && phase.LastSwapping? && lost == (old(lost) || running)
    {
      hide Dispatch.Lives;
      if running {
        lost, phase := true, Dispatch.LastSwapping;
      } else {
        Enter(Dispatch.Leave(0), Dispatch.LastSwapping);
      }
    }

    /** After the loop: clients still queued, sessions still open. Nobody hands over clients any more
        once the local queue has been dealt with. */
    method CleanUp(openings: seq<Opening>)
      requires Valid() && Follows() && phase.LastSwapping? && draining == [] && dying == {} && leaving == {}
      modifies this
      ensures Valid()
      ensures sessions == map[] && leases == map[] && fdToSession == map[] && interests.Keys == {wakeFd}
      ensures activeSessions == 0
      ensures queue == draining == [] && held == {wakeFd}
      ensures handled == arrivals && |arrivals| == rejected + sessionsOpened + discarded
      ensures sessionsOpened == sessionsClosed
      ensures Follows() && phase.Stopped? && lost == old(lost)
      ensures processed == old(processed) && reported == old(reported) && now == old(now) && (old(asked) ==> asked)
    {
      hide Valid, Follows, Carried, Image, Dispatch.Takes, QueueServed, AtDesk;
      DrainQueue(openings);
      while queue != []
        invariant Valid() && Follows() && phase.Discarding? && draining == [] && dying == {} && leaving == {}
        invariant lost == old(lost) && processed == old(processed) && reported == old(reported) && now == old(now)
        invariant old(asked) ==> asked
        decreases |queue|
      {
        DiscardQueued();
      }
      CloseEverything();
    }

    method CloseEverything()
      requires Valid() && Follows() && phase.Discarding? && draining == queue == [] && dying == {} && leaving == {}
      modifies this`interests, this`fdToSession, this`sessions, this`leaving, this`activeSessions, this`sessionsClosed
      modifies this`dying, this`steps, this`phase, this`held, this`leases
      ensures Valid() && Follows() && phase.Stopped?
      ensures sessions == map[] && leases == map[] && fdToSession == map[] && interests.Keys == {wakeFd}
      ensures activeSessions == 0 && held == {wakeFd} && sessionsOpened == sessionsClosed
      ensures handled == arrivals && |arrivals| == rejected + sessionsOpened + discarded
    {
      hide Valid, Follows;
      AllDiscarded();
      CloseAll(sessions.Keys);
      Destroy();
      NobodyLeft();
      Finish();
    }

    lemma NobodyLeft()
      requires Valid() && draining == queue == [] && sessions == map[] && dying == {} && leaving == {}
      ensures leases == map[] && fdToSession == map[] && interests.Keys == {wakeFd}
      ensures activeSessions == 0
      ensures held == {wakeFd}
      ensures handled == arrivals && |arrivals| == rejected + sessionsOpened + discarded
      ensures sessionsOpened == sessionsClosed
    {
      hide Good, Indexed, Armed, Accounted, Counted, OutcomesAgree, InOrder, Charged;
      assert draining + queue == [];
      NothingLeft(Snapshot());
      NothingWaiting(arrivals, handled, rejected + sessionsOpened + discarded);
    }

    ghost method AllDiscarded()
      requires Follows() && phase.Discarding? && queue == []
      modifies this`steps, this`phase
      ensures Follows() && phase.Closing?
    {
      hide Dispatch.Lives;
      Enter(Dispatch.AllDiscarded(0), Dispatch.Closing);
    }

    ghost method Finish()
      requires Follows() && phase.Closing? && activeSessions == 0
      modifies this`steps, this`phase
      ensures Follows() && phase.Stopped?
    {
      hide Dispatch.Lives;
      Enter(Dispatch.Finish(0), Dispatch.Stopped);
    }

    /** A client that nobody will serve any more is closed. */
    method DiscardQueued()
      requires Valid() && Follows() && draining == [] && queue != [] && phase.Discarding?
      modifies this`queue, this`handled, this`held, this`discarded, this`steps, this`phase
      ensures Valid() && queue == old(queue)[1..] && held == old(held) - {old(queue)[0]}
      ensures discarded == old(discarded) + 1
      ensures Follows() && phase == old(phase)
      ensures Dispatch.Takes(old(Image(phase)), Dispatch.Discard(0), Image(phase))
    {
      hide Valid, Dispatch.Lives;
      ghost var before := Image(phase);
      DropQueued();
      Record(before, Dispatch.Discard(0), phase);
    }

    method DropQueued()
      requires Valid() && draining == [] && queue != []
      modifies this`queue, this`handled, this`held, this`discarded
      ensures Valid() && queue == old(queue)[1..] && held == old(held) - {old(queue)[0]}
      ensures handled == old(handled) + [old(queue)[0]] && discarded == old(discarded) + 1
    {
      hide Good, Indexed, Armed, Accounted, Counted, OutcomesAgree, Charged;
      assert draining + queue == queue && draining + queue[1..] == queue[1..];
      AccountedDrop(held, fdToSession, draining + queue, dying, wakeFd);
      assert handled + ([queue[0]] + queue[1..]) == handled + [queue[0]] + queue[1..];
      Close(queue[0]);
      handled := handled + [queue[0]];
      queue := queue[1..];
      discarded := discarded + 1;
    }
  }

  /** Any number of rounds, with any waits of at most a second and without interruptions. After every
      run, and at every moment until the next epoll_wait returns, no session is two seconds past a
      timeout. */
  method RunOnTime(w: Worker, waits: seq<nat>)
    requires w.Idle() && w.now - w.lastSweep < 1000 && forall wait | wait in waits :: wait <= 1000
    modifies w
    ensures w.Idle() && w.now - w.lastSweep < 1000 && w.now == old(w.now) + Sum(waits)
    ensures forall later: nat | w.now <= later <= w.now + 1000 ::
              NobodyLate(w.sessions, later, w.idleTimeout, w.connectTimeout)
  {
    hide Good, Indexed, Armed, Accounted, Counted, OutcomesAgree, Charged, InOrder, Punctual, Overdue, DeliverAll;
    hide BuffersValid, Start, Worker.Follows, Worker.Image, Worker.AtDesk, BatchServed, MovesIn, IdleFor, OpeningsIn;
    hide Wakes, Agree, Worker.Valid, Survived, JustOpened, BatchDone, Worker.Books;
    assert waits[..0] == [];
    for i := 0 to |waits|
      invariant w.Idle() && w.now - w.lastSweep < 1000 && w.now == old(w.now) + Sum(waits[..i])
    {
      assert waits[i] in waits;
      var batch := w.EpollWait(waits[i]);
      var swept := w.Round(waits[i], batch);
      assert waits[..i + 1][..i] == waits[..i];
      ghost var clients := w.OtherThreads({});
    }
    assert waits[..|waits|] == waits;
    forall later: nat | w.now <= later <= w.now + 1000
      ensures NobodyLate(w.sessions, later, w.idleTimeout, w.connectTimeout) {
      PunctualLater(w.sessions, w.lastSweep, later, w.idleTimeout, w.connectTimeout);
    }
  }

  /** The invariant of the hand-over is part of the worker's own: its image fits in every phase of the
      loop that it can be in. */
  lemma ImageFits(w: Worker, phase: Dispatch.Phase)
    requires w.Valid() && (w.draining != [] ==> phase.Draining? || phase.LastDraining?)
    requires Dispatch.Leaving(w.Image(phase)) || w.discarded > 0 ==> !w.running
    requires phase.Closing? || phase.Stopped? ==> w.queue == []
    requires phase.Stopped? ==> w.sessions == map[]
    ensures Dispatch.WorkerFits(w.Image(phase), w.queueLimit)
  {
    hide Good, Indexed, Armed, Accounted, OutcomesAgree, Charged;
    assert w.handled + (w.draining + w.queue) == w.handled + w.draining + w.queue;
  }

  /** What holds of every schedule holds of the worker: its image fits, nobody it was given is
      forgotten, and its whole life is no longer than the clients it was given call for. */
  lemma LifeIsInDispatch(w: Worker)
    requires w.Follows() && !w.lost
    ensures Dispatch.WorkerFits(w.Image(w.phase), w.queueLimit) && Dispatch.Attended(w.Image(w.phase), false)
    ensures |w.steps| <= 21 + 17 * |w.arrivals|
  {
    Dispatch.LifeIsOrderly(w.backlog, w.steps, w.Image(w.phase));
  }

  /** Once asked to stop, a worker can finish by its own steps, whatever it was doing. */
  lemma LifeCanBeFinished(w: Worker) returns (more: seq<Dispatch.Step>, stopped: Dispatch.Worker)
    requires w.Follows() && !w.lost && !w.running
    ensures Dispatch.Lives(w.backlog, w.steps + more, stopped) && stopped.phase.Stopped?
    ensures forall k | 0 <= k < |more| :: Dispatch.IsWorkerStep(more[k]) && more[k].w == 0
  {
    more, stopped := Dispatch.LifeCanEnd(w.backlog, w.steps, w.Image(w.phase));
  }

  /** What epoll is told is what each direction needs: in a worker between two rounds every direction
      of every session is over and drained, or has its source armed for input, or its destination
      armed for output; a pending connect has its outcome armed. */
  lemma NoSessionStalls(w: Worker, id: nat)
    requires w.Idle() && w.capacity > 0 && id in w.sessions
    ensures w.sessions[id].clientFd in w.interests && w.sessions[id].upstreamFd in w.interests
    ensures
      var s := w.sessions[id];
      var client, upstream := w.interests[s.clientFd], w.interests[s.upstreamFd];
      && ((s.request.readClosed && s.request.buffer.data == [])
          || (s.request.buffer.data == [] && client.input)
          || (s.request.buffer.data != [] && upstream.output))
      && ((s.connecting && upstream.output)
          || (s.response.buffer.data == [] && upstream.input)
          || (s.response.buffer.data != [] && client.output))
  {
    hide Indexed, Accounted, Counted, OutcomesAgree, Charged, InOrder, Settled, ClientEvents, UpstreamEvents;
    NeverStalls(w.sessions[id]);
  }

  lemma {:induction false} NothingCharged(counts: seq<nat>)
    requires forall i | 0 <= i < |counts| :: counts[i] == 0
    ensures Sum(counts) == 0
  {
    if counts != [] {
      NothingCharged(counts[..|counts| - 1]);
    }
  }

  lemma NothingYet(wakeFd: int, capacity: nat, failed: seq<nat>, interests: map<int, Events>)
    requires interests.Keys == {wakeFd} && forall i | 0 <= i < |failed| :: failed[i] == 0
    ensures Good(map[], 1, capacity) && Indexed(map[], map[]) && Armed(interests, map[], map[], wakeFd)
    ensures Accounted({wakeFd}, map[], [], {}, wakeFd) && Counted(map[], map[], {}, 1, 0, 0)
    ensures OutcomesAgree(map[], map[], 1) && Charged(0, failed, map[]) && InOrder([], [], [], 0)
  {
    NothingCharged(failed);
    hide Sum;
  }

  lemma AccountedEnqueue(held: set<int>, index: map<int, nat>, waiting: seq<int>, dying: set<int>, wakeFd: int, fd: int)
    requires Accounted(held, index, waiting, dying, wakeFd) && fd !in held
    ensures Accounted(held + {fd}, index, waiting + [fd], dying, wakeFd)
  {
    assert Elements(waiting + [fd]) == Elements(waiting) + {fd};
  }
}
