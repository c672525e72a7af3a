/** The tables of a worker as values: what they promise and how single entries come and go. */
module WorkerTables {
  import opened ByteBuffers
  import opened Intakes
  import opened SessionFates
  import opened SessionRuns
  import opened Sessions
  import opened Traces

  /** One entry of an epoll batch, with the kernel's answers while it is handled: to the calls on a
      session, to the two epoll_ctl(MOD) that follow, and, for the eventfd, while the clients in the
      queue are given sessions. */
  datatype Ready = Ready(fd: int, events: Events, answers: Answers, clientModOk: bool, upstreamModOk: bool,
                         openings: seq<Opening>)

  /** What one entry of a batch does to a session: nothing unless it names one of its descriptors. */
  function Deliver(s: Session, r: Ready): (d: Session)
    requires BuffersValid(s)
    ensures BuffersValid(d)
  {
    if s.closing || !s.Owns(r.fd) then s
    else
      var handled := Handle(s, r.fd, r.events, r.answers);
      handled.(closing := handled.closing || !r.clientModOk || !r.upstreamModOk)
  }

  function DeliverAll(s: Session, batch: seq<Ready>): (d: Session)
    requires BuffersValid(s)
    ensures BuffersValid(d)
  {
    if batch == [] then s else Deliver(DeliverAll(s, batch[..|batch| - 1]), batch[|batch| - 1])
  }

  function Settlements(t: seq<Call>): nat {
    if ConnectOk in t || ConnectFailed in t then 1 else 0
  }

  /** Every session is sound, and identified below the next free number. */
  ghost predicate Good(sessions: map<nat, Session>, next: nat, capacity: nat) {
    forall id | id in sessions ::
      && id < next
      && Settled(sessions[id])
      && sessions[id].request.buffer.capacity == sessions[id].response.buffer.capacity == capacity
  }

  /** `index` is exactly the table of both descriptors of every session. */
  ghost predicate Indexed(index: map<int, nat>, sessions: map<nat, Session>) {
    && (forall id | id in sessions ::
          && sessions[id].clientFd in index && index[sessions[id].clientFd] == id
          && sessions[id].upstreamFd in index && index[sessions[id].upstreamFd] == id)
    && (forall fd | fd in index :: index[fd] in sessions && sessions[index[fd]].Owns(fd))
  }

  /** epoll watches the wake descriptor and the indexed ones, and for every session that is not
      about to go it watches for what the session asks for. */
  ghost predicate Armed(interests: map<int, Events>, index: map<int, nat>, sessions: map<nat, Session>, wakeFd: int) {
    && interests.Keys == index.Keys + {wakeFd}
    && forall id | id in sessions && !sessions[id].closing ::
         && BuffersValid(sessions[id])
         && sessions[id].clientFd in interests && interests[sessions[id].clientFd] == ClientEvents(sessions[id])
         && sessions[id].upstreamFd in interests && interests[sessions[id].upstreamFd] == UpstreamEvents(sessions[id])
  }

  ghost predicate Distinct(fds: seq<int>) {
    forall i, j | 0 <= i < j < |fds| :: fds[i] != fds[j]
  }

  ghost function Elements(fds: seq<int>): set<int> {
    set fd | fd in fds
  }

  /** The sessions of a worker and the table of their descriptors. */
  datatype Registry = Registry(sessions: map<nat, Session>, index: map<int, nat>, next: nat, capacity: nat)

  /** One session, just started on descriptors not indexed before, was added under a new number. */
  ghost predicate Newcomer(before: Registry, after: Registry, now: nat) {
    var id := before.next;
    && id !in before.sessions && id in after.sessions
    && var s := after.sessions[id];
       && s == Start(s.clientFd, s.upstreamFd, s.connecting, before.capacity, now)
       && s.clientFd !in before.index && s.upstreamFd !in before.index
       && after.sessions == before.sessions[id := s]
       && after.index == before.index[s.clientFd := id][s.upstreamFd := id]
       && after.next == id + 1 && after.capacity == before.capacity
  }

  /** Every descriptor held is held for exactly one reason. */
  ghost predicate Accounted(held: set<int>, index: map<int, nat>, waiting: seq<int>, dying: set<int>, wakeFd: int) {
    && held == index.Keys + Elements(waiting) + dying + {wakeFd}
    && Distinct(waiting)
    && index.Keys !! Elements(waiting)
    && index.Keys !! dying
    && Elements(waiting) !! dying
    && wakeFd !in index && wakeFd !in waiting && wakeFd !in dying
  }

  predicate Overdue(s: Session, now: nat, idleTimeout: nat, connectTimeout: nat) {
    ConnectTimedOut(s, now, connectTimeout) || IdleFor(s, now, idleTimeout)
  }

  /** No session was overdue when the worker last looked. */
  ghost predicate Punctual(sessions: map<nat, Session>, lastSweep: nat, idleTimeout: nat, connectTimeout: nat) {
    forall id | id in sessions :: !Overdue(sessions[id], lastSweep, idleTimeout, connectTimeout)
  }

  /** Per session ever created, how often its connect attempt was recorded as settled. */
  ghost predicate OutcomesAgree(outcomes: map<nat, nat>, sessions: map<nat, Session>, next: nat) {
    && (forall id | id in outcomes :: id < next && outcomes[id] <= 1)
    && (forall id | id in sessions :: id in outcomes && outcomes[id] == Settlements(sessions[id].trace))
  }

  /** Every session holds one lease, and so does every session that is only waiting to be destroyed. */
  ghost predicate Counted(sessions: map<nat, Session>, leases: map<nat, nat>, leaving: set<nat>, next: nat,
                          active: nat, balance: int) {
    && active == balance == |sessions|
    && leases.Keys == sessions.Keys + leaving
    && sessions.Keys !! leaving
    && forall id | id in leaving :: id < next
  }

  /** Clients are fetched in the order they came, and each one is dealt with once. */
  ghost predicate InOrder(arrivals: seq<int>, handled: seq<int>, waiting: seq<int>, finished: nat) {
    arrivals == handled + waiting && |handled| == finished
  }

  /** Each connect failure is charged to one backend. */
  ghost predicate Charged(connectFailures: nat, failed: seq<nat>, leases: map<nat, nat>) {
    && connectFailures == Sum(failed)
    && forall id | id in leases :: leases[id] < |failed|
  }

  /** All that a worker keeps, as one value. */
  datatype Tables = Tables(
    sessions: map<nat, Session>,
    index: map<int, nat>,
    interests: map<int, Events>,
    outcomes: map<nat, nat>,
    leases: map<nat, nat>,
    leaving: set<nat>,
    held: set<int>,
    waiting: seq<int>,
    dying: set<int>,
    wakeFd: int,
    next: nat,
    capacity: nat,
    failed: seq<nat>,
    connectFailures: nat,
    active: nat,
    balance: int
  )

  ghost predicate InStep(t: Tables) {
    && Good(t.sessions, t.next, t.capacity)
    && Indexed(t.index, t.sessions)
    && Armed(t.interests, t.index, t.sessions, t.wakeFd)
    && Accounted(t.held, t.index, t.waiting, t.dying, t.wakeFd)
    && Counted(t.sessions, t.leases, t.leaving, t.next, t.active, t.balance)
    && OutcomesAgree(t.outcomes, t.sessions, t.next)
    && Charged(t.connectFailures, t.failed, t.leases)
  }

  function Sum(counts: seq<nat>): nat {
    if counts == [] then 0 else Sum(counts[..|counts| - 1]) + counts[|counts| - 1]
  }

  /** One more failure of backend i. */
  function Bumped(counts: seq<nat>, i: nat): seq<nat>
    requires i < |counts|
  {
    counts[i := counts[i] + 1]
  }

  lemma {:induction false} SumBump(counts: seq<nat>, i: nat)
    requires i < |counts|
    ensures Sum(counts[i := counts[i] + 1]) == Sum(counts) + 1
  {
    var last := |counts| - 1;
    var bumped := counts[i := counts[i] + 1];
    if i < last {
      SumBump(counts[..last], i);
      assert bumped[..last] == counts[..last][i := counts[i] + 1];
    } else {
      assert bumped[..last] == counts[..last];
    }
  }

  // What one delivery preserves.

  lemma HandleMeta(s: Session, fd: int, events: Events, answers: Answers)
    requires Settled(s)
    ensures
      var r := Handle(s, fd, events, answers);
      && (r.lastActivity == s.lastActivity || r.lastActivity == answers.now)
      && (r.connecting ==> s.connecting)
      && (!s.closing && !r.closing && ConnectOk in s.trace ==> ConnectOk in r.trace)
  {
    hide BytesIn, BytesOut, Legal;
    if !s.closing && !Waits(s, fd, events) {
      AdmitIsSound(s, fd, events, answers);
      var s1 := Admit(s, fd, events, answers);
      if !s1.closing {
        var side := if fd == s.clientFd then Client else Upstream;
        ServeSettles(s1, side, events, answers);
        ServeClock(s1, side, events, answers);
      }
    }
  }

  lemma {:induction false} ReadIntoClock(p: Pipe, from: Side, answers: seq<RecvAnswer>, now: nat, progressed: bool)
    requires p.buffer.Valid()
    ensures
      var r := ReadInto(p, from, answers, now, progressed).0;
      r.lastActivity == p.lastActivity || r.lastActivity == now
    decreases |answers|
  {
    CompactedIsTight(p.buffer);
    var ready := p.(buffer := p.buffer.Compacted());
    if ready.buffer.Writable() != 0 && answers != [] {
      match answers[0]
      case Got(bytes) =>
        var count := Min(|bytes|, ready.buffer.Writable());
        if count != 0 {
          ReadIntoClock(ready.Received(from, bytes[..count], now), from, answers[1..], now, true);
        }
      case RecvError(Interrupted) => ReadIntoClock(ready, from, answers[1..], now, progressed);
      case RecvError(_) =>
    }
  }

  lemma {:induction false} WriteFromClock(p: Pipe, to: Side, answers: seq<SendAnswer>, now: nat, progressed: bool)
    requires p.buffer.Valid()
    ensures
      var r := WriteFrom(p, to, answers, now, progressed).0;
      r.lastActivity == p.lastActivity || r.lastActivity == now
    decreases |answers|
  {
    if p.buffer.data != [] && answers != [] {
      match answers[0]
      case Took(offered) =>
        var count := Min(offered, |p.buffer.data|);
        if count != 0 {
          WriteFromClock(p.Delivered(to, count, now), to, answers[1..], now, true);
        }
      case SendError(Interrupted) => WriteFromClock(p, to, answers[1..], now, progressed);
      case SendError(_) =>
    }
  }

  lemma ServeClock(s: Session, side: Side, events: Events, answers: Answers)
    requires BuffersValid(s)
    ensures
      var r := Serve(s, side, events, answers);
      r.lastActivity == s.lastActivity || r.lastActivity == answers.now
  {
    hide ReadInto, WriteFrom;
    ReadIntoClock(s.PipeFrom(side), side, answers.recvs, answers.now, false);
    var m := Pull(s, side, events, answers);
    assert m.lastActivity == s.lastActivity || m.lastActivity == answers.now;
    WriteFromClock(m.PipeFrom(side.Other()), side, answers.sends, answers.now, false);
    var w := Push(m, side, events, answers);
    assert w.lastActivity == s.lastActivity || w.lastActivity == answers.now;
    assert Settle(w).lastActivity == w.lastActivity;
  }

  lemma DeliverKeeps(s: Session, r: Ready)
    requires Settled(s)
    ensures
      var d := Deliver(s, r);
      && Settled(d) && SameShape(s, d)
      && (d.lastActivity == s.lastActivity || d.lastActivity == r.answers.now)
      && (d.connecting ==> s.connecting)
  {
    hide Handle, Legal, PastOf;
    if !s.closing && s.Owns(r.fd) {
      HandleSettles(s, r.fd, r.events, r.answers);
      HandleMeta(s, r.fd, r.events, r.answers);
    }
  }

  /** A delivery records at most one more settlement, and never one for an attempt already settled. */
  lemma DeliverySettles(s: Session, fd: int, events: Events, answers: Answers)
    requires Settled(s)
    ensures
      var r := Handle(s, fd, events, answers);
      Settlements(r.trace)
        == Settlements(s.trace) + Newly(ConnectOk, s.trace, r.trace) + Newly(ConnectFailed, s.trace, r.trace)
  {
    hide Handle, Legal, PastOf;
    HandleSettles(s, fd, events, answers);
    HandleMeta(s, fd, events, answers);
    if s.closing {
      assert Handle(s, fd, events, answers) == s by {
        ClosingStays(s, fd, events, answers);
      }
    }
  }

  /** All that the worker needs to know about one delivery. */
  lemma DeliveryIsNews(s: Session, r: Ready)
    requires Settled(s) && !s.closing && s.Owns(r.fd)
    ensures
      var after := Handle(s, r.fd, r.events, r.answers);
      var d := Deliver(s, r);
      && Settled(d) && SameShape(s, d) && SameShape(s, after) && after.clientFd != after.upstreamFd
      && after.clientFd == s.clientFd && after.upstreamFd == s.upstreamFd
      && d == after.(closing := after.closing || !r.clientModOk || !r.upstreamModOk)
      && Settlements(after.trace)
           == Settlements(s.trace) + Newly(ConnectOk, s.trace, after.trace) + Newly(ConnectFailed, s.trace, after.trace)
      && ClientEvents(d) == ClientEvents(after) && UpstreamEvents(d) == UpstreamEvents(after)
  {
    hide Handle, Legal, PastOf, Settlements;
    DeliverKeeps(s, r);
    HandleSettles(s, r.fd, r.events, r.answers);
    DeliverySettles(s, r.fd, r.events, r.answers);
  }

  lemma OwnerIsSettled(t: Tables, fd: int)
    requires Good(t.sessions, t.next, t.capacity) && Indexed(t.index, t.sessions)
    requires Armed(t.interests, t.index, t.sessions, t.wakeFd) && fd in t.index
    ensures
      var id := t.index[fd];
      && id in t.sessions && id < t.next && Settled(t.sessions[id]) && BuffersValid(t.sessions[id])
      && t.sessions[id].Owns(fd) && t.sessions[id].clientFd in t.index && t.sessions[id].upstreamFd in t.index
      && t.interests.Keys == t.index.Keys + {t.wakeFd}
  {
    hide Settled;
    SettledIsValid(t.sessions[t.index[fd]]);
  }

  lemma OutcomeOf(outcomes: map<nat, nat>, sessions: map<nat, Session>, next: nat, id: nat)
    requires OutcomesAgree(outcomes, sessions, next) && id in sessions
    ensures id in outcomes && outcomes[id] == Settlements(sessions[id].trace)
  {
  }

  lemma BooksFollow(sessions: map<nat, Session>, outcomes: map<nat, nat>, id: nat, s: Session, next: nat)
    requires OutcomesAgree(outcomes, sessions, next) && id in sessions
    ensures |sessions[id := s]| == |sessions| && sessions[id := s].Keys == sessions.Keys
    ensures OutcomesAgree(outcomes[id := Settlements(s.trace)], sessions[id := s], next)
  {
    assert sessions[id := s].Keys == sessions.Keys;
  }

  lemma ArmedOthers(t: Tables, after: map<int, Events>, id: nat)
    requires Indexed(t.index, t.sessions) && Armed(t.interests, t.index, t.sessions, t.wakeFd) && id in t.sessions
    requires after.Keys == t.interests.Keys
    requires forall fd | fd in t.interests && !t.sessions[id].Owns(fd) :: after[fd] == t.interests[fd]
    ensures Armed(after, t.index, t.sessions - {id}, t.wakeFd)
  {
    hide ClientEvents, UpstreamEvents;
  }

  lemma ClosingStays(s: Session, fd: int, events: Events, answers: Answers)
    requires BuffersValid(s) && s.closing
    ensures Handle(s, fd, events, answers) == s
  {
  }

  // How single entries come and go.

  lemma EntryChanges(t: Tables, interests: map<int, Events>, id: nat, s: Session)
    requires Good(t.sessions, t.next, t.capacity) && Indexed(t.index, t.sessions) && id in t.sessions
    requires interests.Keys == t.index.Keys + {t.wakeFd} && Armed(interests, t.index, t.sessions - {id}, t.wakeFd)
    requires Settled(s) && SameShape(t.sessions[id], s)
    requires !s.closing ==> interests[s.clientFd] == ClientEvents(s) && interests[s.upstreamFd] == UpstreamEvents(s)
    ensures
      var after := t.sessions[id := s];
      Good(after, t.next, t.capacity) && Indexed(t.index, after) && Armed(interests, t.index, after, t.wakeFd)
  {
    hide Settled, ClientEvents, UpstreamEvents, Armed;
    SettledIsValid(s);
    ArmedChanges(t, interests, id, s);
  }

  lemma ArmedChanges(t: Tables, interests: map<int, Events>, id: nat, s: Session)
    requires Indexed(t.index, t.sessions) && id in t.sessions && BuffersValid(s)
    requires interests.Keys == t.index.Keys + {t.wakeFd} && Armed(interests, t.index, t.sessions - {id}, t.wakeFd)
    requires s.clientFd == t.sessions[id].clientFd && s.upstreamFd == t.sessions[id].upstreamFd
    requires !s.closing ==> interests[s.clientFd] == ClientEvents(s) && interests[s.upstreamFd] == UpstreamEvents(s)
    ensures Armed(interests, t.index, t.sessions[id := s], t.wakeFd)
  {
    hide ClientEvents, UpstreamEvents, BuffersValid;
    var after := t.sessions[id := s];
    forall k | k in after && !after[k].closing
      ensures BuffersValid(after[k])
      ensures after[k].clientFd in interests && interests[after[k].clientFd] == ClientEvents(after[k])
      ensures after[k].upstreamFd in interests && interests[after[k].upstreamFd] == UpstreamEvents(after[k])
    {
      if k != id {
        assert (t.sessions - {id})[k] == after[k];
      }
    }
  }

  /** Everything about one session having received an event. */
  lemma EntryAttended(t: Tables, interests: map<int, Events>, id: nat, s: Session)
    requires Good(t.sessions, t.next, t.capacity) && Indexed(t.index, t.sessions)
    requires Armed(t.interests, t.index, t.sessions, t.wakeFd) && OutcomesAgree(t.outcomes, t.sessions, t.next)
    requires id in t.sessions && Settled(s) && BuffersValid(s) && SameShape(t.sessions[id], s)
    requires interests.Keys == t.interests.Keys && s.clientFd in interests && s.upstreamFd in interests
    requires forall fd | fd in interests && !t.sessions[id].Owns(fd) :: interests[fd] == t.interests[fd]
    requires !s.closing ==> interests[s.clientFd] == ClientEvents(s) && interests[s.upstreamFd] == UpstreamEvents(s)
    ensures
      var after := t.sessions[id := s];
      && Good(after, t.next, t.capacity) && Indexed(t.index, after) && Armed(interests, t.index, after, t.wakeFd)
      && OutcomesAgree(t.outcomes[id := Settlements(s.trace)], after, t.next)
      && after.Keys == t.sessions.Keys && |after| == |t.sessions|
  {
    assert interests.Keys == t.index.Keys + {t.wakeFd};
    hide Good, Indexed, Armed, OutcomesAgree, Settled, BuffersValid, SameShape, Settlements, ClientEvents;
    hide UpstreamEvents;
    ArmedOthers(t, interests, id);
    EntryChanges(t, interests, id, s);
    BooksFollow(t.sessions, t.outcomes, id, s, t.next);
  }

  lemma GoodComes(sessions: map<nat, Session>, s: Session, next: nat, capacity: nat)
    requires Good(sessions, next, capacity)
    requires Settled(s) && s.request.buffer.capacity == s.response.buffer.capacity == capacity
    ensures next !in sessions && |sessions[next := s]| == |sessions| + 1
    ensures Good(sessions[next := s], next + 1, capacity)
  {
    hide Settled;
  }

  lemma IndexComes(sessions: map<nat, Session>, index: map<int, nat>, s: Session, next: nat)
    requires Indexed(index, sessions) && next !in sessions
    requires s.clientFd !in index && s.upstreamFd !in index && s.clientFd != s.upstreamFd
    ensures Indexed(index[s.clientFd := next][s.upstreamFd := next], sessions[next := s])
  {
  }

  lemma ArmedComes(sessions: map<nat, Session>, index: map<int, nat>, interests: map<int, Events>, wakeFd: int,
                   s: Session, next: nat)
    requires Armed(interests, index, sessions, wakeFd) && BuffersValid(s) && Indexed(index, sessions)
    requires next !in sessions
    requires s.clientFd !in index && s.upstreamFd !in index && s.clientFd != s.upstreamFd
    requires wakeFd != s.clientFd && wakeFd != s.upstreamFd
    ensures Armed(interests[s.clientFd := ClientEvents(s)][s.upstreamFd := UpstreamEvents(s)],
                  index[s.clientFd := next][s.upstreamFd := next], sessions[next := s], wakeFd)
  {
    hide ClientEvents, UpstreamEvents;
  }

  lemma EntryGoes(sessions: map<nat, Session>, index: map<int, nat>, interests: map<int, Events>, wakeFd: int, id: nat,
                  next: nat, capacity: nat)
    requires Good(sessions, next, capacity) && Indexed(index, sessions) && Armed(interests, index, sessions, wakeFd)
    requires id in sessions && wakeFd !in index
    ensures
      var s, after := sessions[id], sessions - {id};
      var fds := {s.clientFd, s.upstreamFd};
      && |after| == |sessions| - 1
      && Good(after, next, capacity)
      && Indexed(index - fds, after)
      && Armed(interests - fds, index - fds, after, wakeFd)
  {
    hide Settled, ClientEvents, UpstreamEvents;
  }

  lemma AccountedMoves(held: set<int>, index: map<int, nat>, waiting: seq<int>, dying: set<int>, wakeFd: int,
                       s: Session)
    requires Accounted(held, index, waiting, dying, wakeFd) && s.clientFd in index && s.upstreamFd in index
    ensures
      var fds := {s.clientFd, s.upstreamFd};
      Accounted(held, index - fds, waiting, dying + fds, wakeFd)
  {
  }

  lemma AccountedDrop(held: set<int>, index: map<int, nat>, waiting: seq<int>, dying: set<int>, wakeFd: int)
    requires Accounted(held, index, waiting, dying, wakeFd) && waiting != []
    ensures waiting[0] in held && waiting[0] in waiting
    ensures Accounted(held - {waiting[0]}, index, waiting[1..], dying, wakeFd)
  {
    assert waiting == [waiting[0]] + waiting[1..];
    assert Elements(waiting) == {waiting[0]} + Elements(waiting[1..]);
    assert waiting[0] !in waiting[1..];
    assert waiting[0] in Elements(waiting);
  }

  lemma AccountedOpen(held: set<int>, index: map<int, nat>, waiting: seq<int>, dying: set<int>, wakeFd: int,
                      upstreamFd: int, id: nat)
    requires Accounted(held, index, waiting, dying, wakeFd) && waiting != [] && upstreamFd !in held
    ensures Accounted(held + {upstreamFd}, index[waiting[0] := id][upstreamFd := id], waiting[1..], dying, wakeFd)
  {
    assert waiting == [waiting[0]] + waiting[1..];
    assert Elements(waiting) == {waiting[0]} + Elements(waiting[1..]);
    assert waiting[0] !in waiting[1..];
    assert waiting[0] in Elements(waiting);
  }

  lemma GoodLater(sessions: map<nat, Session>, next: nat, capacity: nat)
    requires Good(sessions, next, capacity)
    ensures Good(sessions, next + 1, capacity)
  {
    hide Settled;
  }

  lemma OutcomeUsed(sessions: map<nat, Session>, outcomes: map<nat, nat>, next: nat, capacity: nat, outcome: nat)
    requires OutcomesAgree(outcomes, sessions, next) && Good(sessions, next, capacity) && outcome <= 1
    ensures OutcomesAgree(outcomes[next := outcome], sessions, next + 1)
  {
    hide Settled, Settlements;
  }

  lemma OutcomeComes(sessions: map<nat, Session>, outcomes: map<nat, nat>, next: nat, capacity: nat, s: Session)
    requires OutcomesAgree(outcomes, sessions, next) && Good(sessions, next, capacity)
    ensures OutcomesAgree(outcomes[next := Settlements(s.trace)], sessions[next := s], next + 1)
  {
  }

  lemma StartIsSettled(t: Tables, upstreamFd: int, connecting: bool, now: nat)
    requires Accounted(t.held, t.index, t.waiting, t.dying, t.wakeFd) && t.waiting != [] && upstreamFd !in t.held
    ensures
      var s := Start(t.waiting[0], upstreamFd, connecting, t.capacity, now);
      && s.clientFd == t.waiting[0] && s.upstreamFd == upstreamFd && s.clientFd != s.upstreamFd
      && Settled(s) && BuffersValid(s)
      && s.request.buffer.capacity == s.response.buffer.capacity == t.capacity
      && s.clientFd !in t.index && s.upstreamFd !in t.index && s.clientFd != t.wakeFd && s.upstreamFd != t.wakeFd
      && s == Start(s.clientFd, s.upstreamFd, s.connecting, t.capacity, now)
  {
    assert t.waiting[0] in Elements(t.waiting);
    StartSettles(t.waiting[0], upstreamFd, connecting, t.capacity, now);
  }

  lemma KeysGrow(keys: set<nat>, leaving: set<nat>, id: nat)
    requires keys !! leaving && id !in keys && id !in leaving
    ensures (keys + {id}) + leaving == (keys + leaving) + {id} && (keys + {id}) !! leaving
    ensures |keys + {id}| == |keys| + 1
  {
  }

  lemma SessionCounted(t: Tables, s: Session, backend: nat)
    requires Counted(t.sessions, t.leases, t.leaving, t.next, t.active, t.balance) && t.next !in t.sessions
    ensures Counted(t.sessions[t.next := s], t.leases[t.next := backend], t.leaving, t.next + 1, t.active + 1,
                    t.balance + 1)
  {
    var sessions, leases := t.sessions[t.next := s], t.leases[t.next := backend];
    KeysGrow(t.sessions.Keys, t.leaving, t.next);
    assert sessions.Keys == t.sessions.Keys + {t.next} && leases.Keys == t.leases.Keys + {t.next};
    assert |sessions| == |sessions.Keys| && |t.sessions| == |t.sessions.Keys|;
  }

  lemma LeaseComes(t: Tables, s: Session, backend: nat)
    requires Counted(t.sessions, t.leases, t.leaving, t.next, t.active, t.balance)
    requires Charged(t.connectFailures, t.failed, t.leases)
    requires t.next !in t.sessions && backend < |t.failed|
    ensures Counted(t.sessions[t.next := s], t.leases[t.next := backend], t.leaving, t.next + 1, t.active + 1,
                    t.balance + 1)
    ensures Charged(t.connectFailures, t.failed, t.leases[t.next := backend])
  {
    hide Sum, Counted;
    SessionCounted(t, s, backend);
  }

  lemma NewcomerComes(r: Registry, s: Session, now: nat)
    requires r.next !in r.sessions && s.clientFd !in r.index && s.upstreamFd !in r.index
    requires s == Start(s.clientFd, s.upstreamFd, s.connecting, r.capacity, now)
    ensures
      var index := r.index[s.clientFd := r.next][s.upstreamFd := r.next];
      Newcomer(r, Registry(r.sessions[r.next := s], index, r.next + 1, r.capacity), now)
  {
  }

  /** The tables with `s`, the session of the first waiting client, in them. */
  ghost function WithSession(t: Tables, s: Session, backend: nat): Tables
    requires BuffersValid(s) && t.waiting != []
  {
    t.(sessions := t.sessions[t.next := s],
       index := t.index[s.clientFd := t.next][s.upstreamFd := t.next],
       interests := t.interests[s.clientFd := ClientEvents(s)][s.upstreamFd := UpstreamEvents(s)],
       outcomes := t.outcomes[t.next := Settlements(s.trace)],
       leases := t.leases[t.next := backend],
       held := t.held + {s.upstreamFd},
       waiting := t.waiting[1..],
       next := t.next + 1,
       active := t.active + 1,
       balance := t.balance + 1)
  }

  lemma EntryListed(t: Tables, s: Session)
    requires InStep(t) && BuffersValid(s) && t.waiting != [] && s.clientFd == t.waiting[0] && s.upstreamFd !in t.held
    requires Settled(s) && s.request.buffer.capacity == s.response.buffer.capacity == t.capacity
    requires s.clientFd != s.upstreamFd
    requires s.clientFd !in t.index && s.upstreamFd !in t.index && s.clientFd != t.wakeFd && s.upstreamFd != t.wakeFd
    ensures
      var u := WithSession(t, s, 0);
      && t.next !in t.sessions
      && Good(u.sessions, u.next, u.capacity) && Indexed(u.index, u.sessions)
      && Armed(u.interests, u.index, u.sessions, u.wakeFd) && Accounted(u.held, u.index, u.waiting, u.dying, u.wakeFd)
  {
    hide Accounted, Settled, ClientEvents, UpstreamEvents, Armed, Indexed, Good, OutcomesAgree, BuffersValid, Charged;
    hide Counted, Settlements;
    AccountedOpen(t.held, t.index, t.waiting, t.dying, t.wakeFd, s.upstreamFd, t.next);
    GoodComes(t.sessions, s, t.next, t.capacity);
    IndexComes(t.sessions, t.index, s, t.next);
    ArmedComes(t.sessions, t.index, t.interests, t.wakeFd, s, t.next);
  }

  /** Everything about publishing the session of the first waiting client. */
  lemma EntryPublished(t: Tables, s: Session, backend: nat, now: nat)
    requires InStep(t) && BuffersValid(s) && s == Start(s.clientFd, s.upstreamFd, s.connecting, t.capacity, now)
    requires t.waiting != [] && s.clientFd == t.waiting[0] && s.upstreamFd !in t.held && backend < |t.failed|
    ensures InStep(WithSession(t, s, backend)) && t.next !in t.sessions
  {
    hide Accounted, Settled, Settlements, ClientEvents, UpstreamEvents, Armed, Indexed, Good, OutcomesAgree, Start;
    hide Sum, BuffersValid;
    hide Charged, Counted;
    StartIsSettled(t, s.upstreamFd, s.connecting, now);
    EntryListed(t, s);
    OutcomeComes(t.sessions, t.outcomes, t.next, t.capacity, s);
    LeaseComes(t, s, backend);
  }

  ghost function Listed(t: Tables): Registry {
    Registry(t.sessions, t.index, t.next, t.capacity)
  }

  lemma EntryIsNew(t: Tables, s: Session, backend: nat, now: nat)
    requires Accounted(t.held, t.index, t.waiting, t.dying, t.wakeFd) && t.next !in t.sessions
    requires BuffersValid(s) && s == Start(s.clientFd, s.upstreamFd, s.connecting, t.capacity, now)
    requires t.waiting != [] && s.clientFd == t.waiting[0] && s.upstreamFd !in t.held
    ensures Newcomer(Listed(t), Listed(WithSession(t, s, backend)), now)
  {
    hide Accounted, Settled, Start, BuffersValid, Newcomer, ClientEvents, UpstreamEvents;
    StartIsSettled(t, s.upstreamFd, s.connecting, now);
    NewcomerComes(Listed(t), s, now);
  }

  // What a batch does to the tables as a whole.

  /** Every session that was there is still there and has received exactly the entries of `batch`
      that name its own descriptors, in order; every session that was not there has received
      nothing; no indexed descriptor changed its owner. */
  ghost predicate Carried(before: Registry, after: Registry, batch: seq<Ready>, now: nat) {
    && before.next <= after.next && before.capacity == after.capacity
    && (forall id | id in before.sessions ::
          && id in after.sessions && BuffersValid(before.sessions[id])
          && after.sessions[id] == DeliverAll(before.sessions[id], batch))
    && (forall id | id in after.sessions && id !in before.sessions ::
          && id >= before.next
          && var s := after.sessions[id];
             s == Start(s.clientFd, s.upstreamFd, s.connecting, before.capacity, now))
    && (forall fd | fd in before.index :: fd in after.index && after.index[fd] == before.index[fd])
  }

  lemma CarriedStart(before: Registry, now: nat)
    requires Good(before.sessions, before.next, before.capacity)
    ensures Carried(before, before, [], now)
  {
    hide Settled;
    forall id | id in before.sessions ensures BuffersValid(before.sessions[id]) {
      SettledIsValid(before.sessions[id]);
    }
  }

  lemma CarriedNewcomer(before: Registry, mid: Registry, after: Registry, batch: seq<Ready>, now: nat)
    requires Carried(before, mid, batch, now) && Newcomer(mid, after, now)
    ensures Carried(before, after, batch, now)
  {
    hide DeliverAll, Start;
  }

  /** Numbers may have been used up, for sessions that came to nothing. */
  predicate StillListed(before: Registry, after: Registry) {
    after == before.(next := after.next) && after.next >= before.next
  }

  lemma CarriedLater(before: Registry, mid: Registry, after: Registry, batch: seq<Ready>, now: nat)
    requires Carried(before, mid, batch, now) && StillListed(mid, after)
    ensures Carried(before, after, batch, now)
  {
    hide DeliverAll, Start;
  }

  lemma CarriedThen(before: Registry, mid: Registry, after: Registry, batch: seq<Ready>, now: nat)
    requires Carried(before, mid, batch, now) && Carried(mid, after, [], now)
    ensures Carried(before, after, batch, now)
  {
    hide Start;
  }

  lemma DeliverAllSnoc(s: Session, batch: seq<Ready>, r: Ready)
    requires BuffersValid(s)
    ensures DeliverAll(s, batch + [r]) == Deliver(DeliverAll(s, batch), r)
  {
    assert (batch + [r])[..|batch|] == batch;
  }

  lemma OthersAreNotMeant(index: map<int, nat>, sessions: map<nat, Session>, r: Ready, id: nat)
    requires Indexed(index, sessions) && id in sessions && BuffersValid(sessions[id])
    requires r.fd in index ==> id != index[r.fd] || sessions[id].closing
    ensures Deliver(sessions[id], r) == sessions[id]
  {
    hide Handle;
  }

  lemma SameOwner(before: Registry, mid: Registry, batch: seq<Ready>, now: nat, fd: int)
    requires Carried(before, mid, batch, now) && Indexed(before.index, before.sessions) && fd in before.index
    ensures fd in mid.index && mid.index[fd] == before.index[fd]
    ensures before.index[fd] in before.sessions && before.index[fd] in mid.sessions
    ensures BuffersValid(mid.sessions[before.index[fd]])
  {
    hide DeliverAll, Start;
  }

  lemma OneMoreDelivery(before: Registry, mid: Registry, batch: seq<Ready>, r: Ready, now: nat, id: nat)
    requires Carried(before, mid, batch, now) && Indexed(mid.index, mid.sessions) && id in before.sessions
    ensures id in mid.sessions && BuffersValid(before.sessions[id]) && BuffersValid(mid.sessions[id])
    ensures DeliverAll(before.sessions[id], batch + [r]) == Deliver(mid.sessions[id], r)
    ensures (r.fd in mid.index ==> id != mid.index[r.fd] || mid.sessions[id].closing) ==>
              Deliver(mid.sessions[id], r) == mid.sessions[id]
  {
    hide DeliverAll, Deliver, Start, Indexed;
    DeliverAllSnoc(before.sessions[id], batch, r);
    if r.fd in mid.index ==> id != mid.index[r.fd] || mid.sessions[id].closing {
      OthersAreNotMeant(mid.index, mid.sessions, r, id);
    }
  }

  lemma CarriedUpdate(before: Registry, mid: Registry, batch: seq<Ready>, batch': seq<Ready>, owner: nat, s: Session,
                      now: nat)
    requires Carried(before, mid, batch, now) && owner in before.sessions
    requires forall id | id in before.sessions ::
               && id in mid.sessions && BuffersValid(before.sessions[id])
               && DeliverAll(before.sessions[id], batch') == if id == owner then s else mid.sessions[id]
    ensures Carried(before, mid.(sessions := mid.sessions[owner := s]), batch', now)
  {
    hide DeliverAll, Start, BuffersValid;
  }

  /** The entry reaches the session that owned the descriptor when the batch began, and no other. */
  lemma CarriedDelivery(before: Registry, mid: Registry, batch: seq<Ready>, r: Ready, now: nat)
    requires Carried(before, mid, batch, now) && r.fd in before.index
    requires Indexed(before.index, before.sessions) && Indexed(mid.index, mid.sessions)
    ensures r.fd in mid.index && mid.index[r.fd] == before.index[r.fd]
    ensures before.index[r.fd] in before.sessions && before.index[r.fd] in mid.sessions
    ensures BuffersValid(mid.sessions[before.index[r.fd]])
    ensures
      var owner := before.index[r.fd];
      Carried(before, mid.(sessions := mid.sessions[owner := Deliver(mid.sessions[owner], r)]), batch + [r], now)
  {
    SameOwner(before, mid, batch, now, r.fd);
    hide *;
    var owner := before.index[r.fd];
    forall id | id in before.sessions
      ensures id in mid.sessions && BuffersValid(before.sessions[id]) && BuffersValid(mid.sessions[id])
      ensures DeliverAll(before.sessions[id], batch + [r])
           == if id == owner then Deliver(mid.sessions[owner], r) else mid.sessions[id]
    {
      OneMoreDelivery(before, mid, batch, r, now, id);
    }
    CarriedUpdate(before, mid, batch, batch + [r], owner, Deliver(mid.sessions[owner], r), now);
  }

  /** An entry nobody owns, or whose owner is about to go, changes nothing. */
  lemma CarriedSkip(before: Registry, mid: Registry, batch: seq<Ready>, r: Ready, now: nat)
    requires Carried(before, mid, batch, now) && Indexed(mid.index, mid.sessions)
    requires r.fd in mid.index ==> mid.sessions[mid.index[r.fd]].closing
    ensures Carried(before, mid, batch + [r], now)
  {
    hide DeliverAll, Deliver, Start, Indexed;
    forall id | id in before.sessions
      ensures BuffersValid(mid.sessions[id]) && DeliverAll(before.sessions[id], batch + [r]) == mid.sessions[id]
    {
      OneMoreDelivery(before, mid, batch, r, now, id);
    }
  }

  lemma CarriedMeans(before: Registry, after: Registry, batch: seq<Ready>, now: nat)
    requires Carried(before, after, batch, now)
    ensures forall id | id in before.sessions ::
              && id in after.sessions && BuffersValid(before.sessions[id])
              && after.sessions[id] == DeliverAll(before.sessions[id], batch)
    ensures JustOpened(before.sessions, after.sessions, before.capacity, now)
  {
    hide DeliverAll, Start, BuffersValid;
  }

  lemma WatchedIsIndexed(interests: map<int, Events>, index: map<int, nat>, sessions: map<nat, Session>, wakeFd: int)
    requires Armed(interests, index, sessions, wakeFd)
    ensures forall fd | fd in interests :: fd == wakeFd || fd in index
  {
  }

  lemma WakeIsNobodys(held: set<int>, index: map<int, nat>, waiting: seq<int>, dying: set<int>, wakeFd: int)
    requires Accounted(held, index, waiting, dying, wakeFd)
    ensures wakeFd !in index
  {
  }

  /** A batch names the eventfd at most once, and only if it has been written to. */
  predicate Wakes(batch: seq<Ready>, wakeFd: int, signal: nat) {
    && (forall i, j | 0 <= i < j < |batch| :: batch[i].fd == wakeFd ==> batch[j].fd != wakeFd)
    && (signal == 0 ==> forall i | 0 <= i < |batch| :: batch[i].fd != wakeFd)
  }

  /** Later writes change nothing about that, and once it has been read it is not named again. */
  lemma WakesLater(batch: seq<Ready>, i: nat, wakeFd: int, signal: nat, later: nat)
    requires i < |batch| && Wakes(batch[i..], wakeFd, signal) && later >= signal
    ensures Wakes(batch[i + 1..], wakeFd, later)
    ensures batch[i].fd == wakeFd ==> later > 0 && Wakes(batch[i + 1..], wakeFd, 0)
  {
    assert batch[i..][0] == batch[i];
    assert forall k | i < k < |batch| :: batch[i..][k - i] == batch[k];
  }

  /** One call of epoll_wait: it is interrupted, fails for good, or returns a batch. */
  datatype Wait = Interrupts(waited: nat) | Fails | Returns(waited: nat)

  function Elapsed(waits: seq<Wait>): nat {
    if waits == [] then 0
    else
      var last := waits[|waits| - 1];
      Elapsed(waits[..|waits| - 1]) + if last.Fails? then 0 else last.waited
  }

  function Returned(waits: seq<Wait>): nat {
    if waits == [] then 0
    else Returned(waits[..|waits| - 1]) + if waits[|waits| - 1].Returns? then 1 else 0
  }

  lemma OneMoreWait(waits: seq<Wait>, i: nat)
    requires i < |waits|
    ensures Elapsed(waits[..i + 1]) == Elapsed(waits[..i]) + if waits[i].Fails? then 0 else waits[i].waited
    ensures Returned(waits[..i + 1]) == Returned(waits[..i]) + if waits[i].Returns? then 1 else 0
  {
    assert waits[..i + 1][..i] == waits[..i];
  }

  predicate Woken(batch: seq<Ready>, wakeFd: int) {
    exists r | r in batch :: r.fd == wakeFd
  }

  /** The answers that come with the eventfd, if the batch names it. */
  function OpeningsIn(batch: seq<Ready>, wakeFd: int): seq<Opening> {
    if batch == [] then []
    else if batch[0].fd == wakeFd then batch[0].openings
    else OpeningsIn(batch[1..], wakeFd)
  }

  /** What the books of a batch are about: the tables at its start, the open descriptors, the clients
      handed over and dealt with, those thrown away, and whether the worker is running. */
  datatype Ledger = Ledger(desk: Desk, held: set<int>, arrivals: seq<int>, handled: seq<int>, discarded: nat,
                           running: bool)

  /** Between `a` and `b` the entries `done` of a batch have been handled: the clients fetched got what
      the answers say, and if the eventfd was named, these are all that had been handed over. */
  ghost predicate InBatch(a: Ledger, b: Ledger, done: seq<Ready>, rest: seq<Ready>, wakeFd: int, capacity: nat,
                          now: nat) {
    && a.handled <= b.handled && a.arrivals <= b.arrivals && (b.running ==> a.running)
    && BatchServed(a.desk, a.held, b.handled[|a.handled|..], OpeningsIn(done, wakeFd), b.desk,
                   b.discarded - a.discarded, b.running, capacity, now)
    && (Woken(done, wakeFd) ==> a.arrivals <= b.handled)
    && (!Woken(done, wakeFd) ==>
          && b.handled == a.handled && b.discarded == a.discarded && OthersChanged(a.desk, a.desk, b.desk)
          && |b.desk.failed| == |a.desk.failed| && Agree(b.held, a.held, Fds(OpeningsIn(rest, wakeFd))))
  }

  lemma BatchOpens(a: Ledger, batch: seq<Ready>, wakeFd: int, capacity: nat, now: nat)
    ensures InBatch(a, a, [], batch, wakeFd, capacity, now)
  {
    hide BatchServed;
    assert a.handled[|a.handled|..] == [];
    NobodyYet(a.desk, a.held, [], a.running, capacity, now);
  }

  lemma BatchMeanwhile(a: Ledger, b: Ledger, c: Ledger, done: seq<Ready>, rest: seq<Ready>, wakeFd: int, capacity: nat,
                       now: nat)
    requires InBatch(a, b, done, rest, wakeFd, capacity, now)
    requires c == b.(held := c.held, arrivals := c.arrivals, running := c.running)
    requires b.arrivals <= c.arrivals && (c.running ==> b.running)
    requires Agree(c.held, b.held, Fds(OpeningsIn(rest, wakeFd)))
    ensures InBatch(a, c, done, rest, wakeFd, capacity, now)
  {
    hide BatchServed, Fds, OpeningsIn, Woken;
    ServedStill(a.desk, a.held, b.handled[|a.handled|..], OpeningsIn(done, wakeFd), b.desk, c.desk,
                b.discarded - a.discarded, b.running, c.running, capacity, now);
  }

  lemma OpeningsSnoc(done: seq<Ready>, r: Ready, rest: seq<Ready>, wakeFd: int)
    ensures Woken(done + [r], wakeFd) <==> Woken(done, wakeFd) || r.fd == wakeFd
    ensures OpeningsIn(done + [r], wakeFd) == if Woken(done, wakeFd) || r.fd != wakeFd then OpeningsIn(done, wakeFd)
                                              else r.openings
    ensures OpeningsIn([r] + rest, wakeFd) == if r.fd == wakeFd then r.openings else OpeningsIn(rest, wakeFd)
  {
    assert ([r] + rest)[1..] == rest;
    FirstOpenings(done, r, wakeFd);
    assert forall x | x in done :: x in done + [r];
    assert r in done + [r];
  }

  lemma {:induction false} FirstOpenings(done: seq<Ready>, r: Ready, wakeFd: int)
    ensures OpeningsIn(done + [r], wakeFd) == if Woken(done, wakeFd) || r.fd != wakeFd then OpeningsIn(done, wakeFd)
                                              else r.openings
  {
    if done != [] {
      assert (done + [r])[1..] == done[1..] + [r];
      FirstOpenings(done[1..], r, wakeFd);
      assert done == [done[0]] + done[1..];
      assert Woken(done, wakeFd) <==> done[0].fd == wakeFd || Woken(done[1..], wakeFd);
    }
  }

  lemma BatchWakes(a: Ledger, b: Ledger, c: Ledger, done: seq<Ready>, r: Ready, rest: seq<Ready>, queue: seq<int>,
                   wakeFd: int, capacity: nat, now: nat)
    requires InBatch(a, b, done, [r] + rest, wakeFd, capacity, now) && !Woken(done, wakeFd) && r.fd == wakeFd
    requires c.handled == b.handled + queue == b.arrivals <= c.arrivals && (c.running ==> b.running)
    requires forall id | id in b.desk.sessions :: id < b.desk.next
    requires QueueServed(b.desk, b.held, queue, r.openings, c.desk, c.discarded - b.discarded, c.running, capacity, now)
    ensures InBatch(a, c, done + [r], rest, wakeFd, capacity, now)
  {
    hide BatchServed, QueueServed, Fds, OpeningsIn, Woken;
    OpeningsSnoc(done, r, rest, wakeFd);
    assert c.handled[|a.handled|..] == queue;
    ServedNow(a.desk, a.held, b.desk, b.held, queue, r.openings, c.desk, c.discarded - a.discarded, c.running, capacity,
              now);
  }

  lemma BatchDelivers(a: Ledger, b: Ledger, c: Ledger, done: seq<Ready>, r: Ready, rest: seq<Ready>, wakeFd: int,
                      capacity: nat, now: nat)
    requires InBatch(a, b, done, [r] + rest, wakeFd, capacity, now) && r.fd != wakeFd
    requires c == b.(desk := c.desk, running := c.running) && (c.running ==> b.running)
    requires OthersChanged(a.desk, b.desk, c.desk) && |c.desk.failed| == |b.desk.failed|
    ensures InBatch(a, c, done + [r], rest, wakeFd, capacity, now)
  {
    hide BatchServed, Fds, OpeningsIn, Woken;
    OpeningsSnoc(done, r, rest, wakeFd);
    ServedStill(a.desk, a.held, b.handled[|a.handled|..], OpeningsIn(done, wakeFd), b.desk, c.desk,
                b.discarded - a.discarded, b.running, c.running, capacity, now);
  }

  lemma WakesNow(batch: seq<Ready>, i: nat, wakeFd: int, start: nat, signal: nat)
    requires i < |batch| && Wakes(batch, wakeFd, start) && Wakes(batch[i..], wakeFd, signal)
    ensures batch[i].fd == wakeFd ==> signal > 0 && !Woken(batch[..i], wakeFd)
  {
    assert batch[i..][0] == batch[i];
    assert forall k | 0 <= k < i :: batch[..i][k] == batch[k];
  }

  /** When a batch is over, everybody who had been handed over before has been dealt with if it named
      the eventfd; a worker that is still running has thrown nobody away; and the clients it fetched
      got what the answers say. */
  ghost predicate BatchDone(a: Ledger, b: Ledger, batch: seq<Ready>, wakeFd: int, capacity: nat, now: nat) {
    && a.handled <= b.handled && a.discarded <= b.discarded
    && (b.running ==> a.running && b.discarded == a.discarded)
    && ((exists r | r in batch :: r.fd == wakeFd) ==> a.arrivals <= b.handled)
    && BatchServed(a.desk, a.held, b.handled[|a.handled|..], OpeningsIn(batch, wakeFd), b.desk,
                   b.discarded - a.discarded, b.running, capacity, now)
  }

  lemma DoneLater(a: Ledger, b: Ledger, c: Ledger, batch: seq<Ready>, wakeFd: int, capacity: nat, now: nat)
    requires BatchDone(a, b, batch, wakeFd, capacity, now)
    requires c == b.(desk := c.desk, held := c.held)
    requires c.desk.next == b.desk.next && c.desk.rejected == b.desk.rejected && c.desk.created == b.desk.created
    requires c.desk.sessions.Keys <= b.desk.sessions.Keys && c.desk.leases.Keys == c.desk.sessions.Keys
    requires forall id | id in c.desk.sessions && id in b.desk.leases :: c.desk.leases[id] == b.desk.leases[id]
    requires forall id | id in b.desk.sessions && id !in a.desk.sessions ::
               id in c.desk.sessions && c.desk.sessions[id] == b.desk.sessions[id]
    ensures BatchDone(a, c, batch, wakeFd, capacity, now)
  {
    hide BatchServed, OpeningsIn;
    ServedLater(a.desk, a.held, b.handled[|a.handled|..], OpeningsIn(batch, wakeFd), b.desk, c.desk,
                b.discarded - a.discarded, b.running, capacity, now);
  }

  lemma BatchMeans(a: Ledger, b: Ledger, batch: seq<Ready>, wakeFd: int, capacity: nat, now: nat)
    requires InBatch(a, b, batch, [], wakeFd, capacity, now)
    ensures BatchDone(a, b, batch, wakeFd, capacity, now)
  {
    hide SeatAll;
  }

  lemma WokenMeansFetched(a: Ledger, b: Ledger, batch: seq<Ready>, wakeFd: int, capacity: nat, now: nat)
    requires InBatch(a, b, batch, [], wakeFd, capacity, now)
    ensures (exists r | r in batch :: r.fd == wakeFd) ==> a.arrivals <= b.handled
  {
    hide BatchServed;
  }

  lemma NotNamed(batch: seq<Ready>, wakeFd: int, signal: nat)
    requires Wakes(batch, wakeFd, 0)
    ensures Wakes(batch, wakeFd, signal)
  {
  }

  /** What survives a sweep, or the time between two sweeps, was not overdue at the last sweep. */
  lemma SurvivorsArePunctual(before: map<nat, Session>, after: map<nat, Session>, lastSweep: nat, now: nat, swept: bool,
                             idleTimeout: nat, connectTimeout: nat)
    requires Punctual(before, lastSweep, idleTimeout, connectTimeout)
    requires after == map id | id in before && !before[id].closing
                                && !(swept && Overdue(before[id], now, idleTimeout, connectTimeout))
                         :: before[id]
    ensures Punctual(after, if swept then now else lastSweep, idleTimeout, connectTimeout)
    ensures forall id | id in after :: !after[id].closing
  {
    hide Overdue;
  }

  // Leaving the tables.

  lemma NumbersAreUsed(sessions: map<nat, Session>, next: nat, capacity: nat)
    requires Good(sessions, next, capacity)
    ensures forall id | id in sessions :: id < next
  {
    hide Settled;
  }

  lemma IdIsUsed(sessions: map<nat, Session>, next: nat, capacity: nat, id: nat)
    requires Good(sessions, next, capacity) && id in sessions
    ensures id < next
  {
    hide Settled;
  }

  lemma SessionLeaves(t: Tables, id: nat)
    requires Counted(t.sessions, t.leases, t.leaving, t.next, t.active, t.balance) && id in t.sessions && id < t.next
    ensures t.active > 0 && Counted(t.sessions - {id}, t.leases, t.leaving + {id}, t.next, t.active - 1, t.balance - 1)
  {
    var keys, leaving := t.sessions.Keys, t.leaving;
    assert (t.sessions - {id}).Keys == keys - {id};
    assert (keys - {id}) + (leaving + {id}) == keys + leaving;
  }

  lemma BooksShrink(t: Tables, id: nat)
    requires OutcomesAgree(t.outcomes, t.sessions, t.next) && Good(t.sessions, t.next, t.capacity) && id in t.sessions
    requires Counted(t.sessions, t.leases, t.leaving, t.next, t.active, t.balance)
    ensures OutcomesAgree(t.outcomes, t.sessions - {id}, t.next)
    ensures t.active > 0 && Counted(t.sessions - {id}, t.leases, t.leaving + {id}, t.next, t.active - 1, t.balance - 1)
  {
    hide Good, Counted, Settlements;
    IdIsUsed(t.sessions, t.next, t.capacity, id);
    SessionLeaves(t, id);
  }

  lemma CountedFor(t: Tables, after: map<nat, Session>)
    requires Counted(t.sessions, t.leases, t.leaving, t.next, t.active, t.balance) && after.Keys == t.sessions.Keys
    ensures Counted(after, t.leases, t.leaving, t.next, t.active, t.balance)
  {
    assert |after| == |after.Keys| && |t.sessions| == |t.sessions.Keys|;
  }

  lemma LeaseOf(t: Tables, id: nat)
    requires Counted(t.sessions, t.leases, t.leaving, t.next, t.active, t.balance) && id in t.sessions
    requires Charged(t.connectFailures, t.failed, t.leases)
    ensures id in t.leases && t.leases[id] < |t.failed| && t.connectFailures == Sum(t.failed)
  {
    hide Sum;
  }

  lemma ChargedStill(t: Tables, connectFailures: nat, failed: seq<nat>)
    requires Charged(t.connectFailures, t.failed, t.leases) && |failed| == |t.failed| && connectFailures == Sum(failed)
    ensures Charged(connectFailures, failed, t.leases)
  {
    hide Sum;
  }

  lemma CountedLater(sessions: map<nat, Session>, leases: map<nat, nat>, leaving: set<nat>, next: nat, active: nat,
                     balance: int)
    requires Counted(sessions, leases, leaving, next, active, balance)
    ensures Counted(sessions, leases, leaving, next + 1, active, balance)
  {
  }

  lemma AccountedDestroy(held: set<int>, index: map<int, nat>, waiting: seq<int>, dying: set<int>, wakeFd: int)
    requires Accounted(held, index, waiting, dying, wakeFd)
    ensures dying <= held && Accounted(held - dying, index, waiting, {}, wakeFd)
  {
  }

  /** The leases of destroyed sessions go back. */
  lemma LeasesGo(t: Tables)
    requires Counted(t.sessions, t.leases, t.leaving, t.next, t.active, t.balance)
    requires Charged(t.connectFailures, t.failed, t.leases)
    ensures Counted(t.sessions, t.leases - t.leaving, {}, t.next, t.active, t.balance)
    ensures Charged(t.connectFailures, t.failed, t.leases - t.leaving)
  {
    hide Sum;
    assert (t.leases - t.leaving).Keys == t.leases.Keys - t.leaving;
  }

  ghost function GivenBack(t: Tables): Tables {
    t.(held := t.held - t.dying, dying := {}, leases := t.leases - t.leaving, leaving := {})
  }

  /** Everything about destroying the sessions that are out of the tables. */
  lemma EntriesDestroyed(t: Tables)
    requires InStep(t)
    ensures InStep(GivenBack(t)) && t.dying <= t.held && (t.leases - t.leaving).Keys == t.sessions.Keys
  {
    LeasesGo(t);
    AccountedDestroy(t.held, t.index, t.waiting, t.dying, t.wakeFd);
    assert (t.leases - t.leaving).Keys == t.sessions.Keys;
    hide Good, Indexed, Armed, Accounted, Counted, OutcomesAgree, Charged;
  }

  function GivenUp(s: Session): Session {
    s.Log(ConnectFailed).(closing := true)
  }

  /** A pending attempt that is given up has not been settled before. */
  lemma GivenUpIsSettled(s: Session)
    requires Settled(s) && s.connecting && !s.closing
    ensures Allowed(s.trace, ConnectFailed) && Settlements(s.trace) == 0
    ensures Settled(GivenUp(s)) && SameShape(s, GivenUp(s)) && Settlements(GivenUp(s).trace) == 1
  {
    AfterConnect(s.trace, ConnectFailed);
  }

  /** Everything about giving up one attempt. */
  lemma EntryGivenUp(t: Tables, id: nat)
    requires InStep(t) && id in t.sessions && t.sessions[id].connecting && !t.sessions[id].closing
    ensures
      var after := t.sessions[id := GivenUp(t.sessions[id])];
      && Good(after, t.next, t.capacity) && Indexed(t.index, after) && Armed(t.interests, t.index, after, t.wakeFd)
      && Counted(after, t.leases, t.leaving, t.next, t.active, t.balance)
      && OutcomesAgree(t.outcomes[id := 1], after, t.next)
    ensures id in t.outcomes && t.outcomes[id] == 0 && id in t.leases && t.leases[id] < |t.failed|
    ensures t.connectFailures == Sum(t.failed)
  {
    hide Settled, Settlements, ClientEvents, UpstreamEvents, Accounted, Good, Indexed, Armed, Sum, Counted, Charged;
    hide OutcomesAgree, SameShape, Allowed, Legal;
    SettledAt(t.sessions, t.next, t.capacity, id);
    GivenUpIsSettled(t.sessions[id]);
    OutcomeOf(t.outcomes, t.sessions, t.next, id);
    LeaseOf(t, id);
    ArmedWithout(t.interests, t.index, t.sessions, t.wakeFd, id);
    EntryChanges(t, t.interests, id, GivenUp(t.sessions[id]));
    BooksFollow(t.sessions, t.outcomes, id, GivenUp(t.sessions[id]), t.next);
    CountedFor(t, t.sessions[id := GivenUp(t.sessions[id])]);
  }

  lemma {:induction false} DeliverAllMeta(s: Session, batch: seq<Ready>, now: nat)
    requires Settled(s) && forall r | r in batch :: r.answers.now == now
    ensures
      var d := DeliverAll(s, batch);
      && Settled(d) && SameShape(s, d)
      && (d.lastActivity == s.lastActivity || d.lastActivity == now)
      && (d.connecting ==> s.connecting)
  {
    if batch != [] {
      DeliverAllMeta(s, batch[..|batch| - 1], now);
      DeliverKeeps(DeliverAll(s, batch[..|batch| - 1]), batch[|batch| - 1]);
    }
  }

  /** Nothing that happens in a batch makes a session overdue at an earlier time. */
  lemma CarriedPunctual(before: Registry, after: Registry, batch: seq<Ready>, now: nat, lastSweep: nat,
                        idleTimeout: nat, connectTimeout: nat)
    requires Carried(before, after, batch, now) && Good(before.sessions, before.next, before.capacity)
    requires forall r | r in batch :: r.answers.now == now
    requires lastSweep <= now && idleTimeout > 0 && connectTimeout > 0
    requires Punctual(before.sessions, lastSweep, idleTimeout, connectTimeout)
    ensures Punctual(after.sessions, lastSweep, idleTimeout, connectTimeout)
  {
    hide DeliverAll, Settled;
    forall id | id in after.sessions
      ensures !IdleFor(after.sessions[id], lastSweep, idleTimeout)
      ensures !ConnectTimedOut(after.sessions[id], lastSweep, connectTimeout)
    {
      if id in before.sessions {
        DeliverAllMeta(before.sessions[id], batch, now);
      }
    }
  }

  /** A batch touches exactly the sessions it moves something in, so nobody who was just active is idle. */
  lemma {:induction false} BatchTouches(s: Session, batch: seq<Ready>, now: nat)
    requires BuffersValid(s) && forall r | r in batch :: r.answers.now == now
    ensures Touched(s, DeliverAll(s, batch), now)
  {
    hide Handle, Touched, Deliver;
    if batch == [] {
      StillTouched(s, now);
    } else {
      var before, last := batch[..|batch| - 1], batch[|batch| - 1];
      BatchTouches(s, before, now);
      DeliveryTouches(DeliverAll(s, before), last);
      TouchedTwice(s, DeliverAll(s, before), DeliverAll(s, batch), now);
    }
  }

  lemma DeliveryTouches(s: Session, r: Ready)
    requires BuffersValid(s)
    ensures Touched(s, Deliver(s, r), r.answers.now)
  {
    hide Handle, MovesIn;
    EventTouches(s, r.fd, r.events, r.answers);
  }

  lemma IdleInBatch(before: Registry, batch: seq<Ready>, now: nat, idleTimeout: nat)
    requires Good(before.sessions, before.next, before.capacity) && idleTimeout > 0
    requires forall r | r in batch :: r.answers.now == now
    ensures forall id | id in before.sessions ::
              && BuffersValid(before.sessions[id])
              && (IdleFor(DeliverAll(before.sessions[id], batch), now, idleTimeout) <==>
                    && MovesIn(DeliverAll(before.sessions[id], batch).trace) == MovesIn(before.sessions[id].trace)
                    && now - before.sessions[id].lastActivity >= idleTimeout)
  {
    hide DeliverAll, Settled, MovesIn, BuffersValid;
    forall id | id in before.sessions
      ensures BuffersValid(before.sessions[id])
      ensures Touched(before.sessions[id], DeliverAll(before.sessions[id], batch), now)
    {
      SettledIsValid(before.sessions[id]);
      BatchTouches(before.sessions[id], batch, now);
    }
  }

  /** After a batch every session has received its own entries; it is idle exactly if nothing moved in
      it now and it had been quiet for that long. */
  ghost predicate Received(before: map<nat, Session>, batch: seq<Ready>, after: map<nat, Session>, now: nat,
                           idleTimeout: nat) {
    forall id | id in before ::
      && id in after && BuffersValid(before[id]) && after[id] == DeliverAll(before[id], batch)
      && (IdleFor(after[id], now, idleTimeout) <==>
            MovesIn(after[id].trace) == MovesIn(before[id].trace) && now - before[id].lastActivity >= idleTimeout)
  }

  /** After a round exactly those sessions are left that their entries leave open and that no sweep
      finds overdue: their connect pending for too long, or nothing moved in them now and for long. */
  ghost predicate Survived(before: map<nat, Session>, batch: seq<Ready>, after: map<nat, Session>, swept: bool,
                           now: nat, idleTimeout: nat, connectTimeout: nat) {
    forall id | id in before ::
      && BuffersValid(before[id])
      && var d := DeliverAll(before[id], batch);
         var quiet := MovesIn(d.trace) == MovesIn(before[id].trace) && now - before[id].lastActivity >= idleTimeout;
         && (id in after <==> !d.closing && !(swept && (ConnectTimedOut(d, now, connectTimeout) || quiet)))
         && (id in after ==> after[id] == d)
  }

  lemma SurvivorsAre(before: map<nat, Session>, batch: seq<Ready>, mid: map<nat, Session>, after: map<nat, Session>,
                     swept: bool, now: nat, idleTimeout: nat, connectTimeout: nat)
    requires Received(before, batch, mid, now, idleTimeout)
    requires after == map id | id in mid && !mid[id].closing
                                && !(swept && Overdue(mid[id], now, idleTimeout, connectTimeout))
                         :: mid[id]
    ensures Survived(before, batch, after, swept, now, idleTimeout, connectTimeout)
  {
    hide DeliverAll, BuffersValid, MovesIn, IdleFor, ConnectTimedOut;
  }

  /** Sessions that were not there before have just been started. */
  ghost predicate JustOpened(before: map<nat, Session>, after: map<nat, Session>, capacity: nat, now: nat) {
    forall id | id in after && id !in before ::
      after[id] == Start(after[id].clientFd, after[id].upstreamFd, after[id].connecting, capacity, now)
  }

  /** So they are neither marked nor overdue when the batch is over. */
  lemma NewcomersStay(before: map<nat, Session>, mid: map<nat, Session>, after: map<nat, Session>, swept: bool,
                      capacity: nat, now: nat, idleTimeout: nat, connectTimeout: nat)
    requires JustOpened(before, mid, capacity, now) && idleTimeout > 0 && connectTimeout > 0
    requires after == map id | id in mid && !mid[id].closing
                                && !(swept && Overdue(mid[id], now, idleTimeout, connectTimeout))
                         :: mid[id]
    ensures JustOpened(before, after, capacity, now)
    ensures forall id | id in mid && id !in before :: id in after && after[id] == mid[id]
  {
  }

  lemma SettledAt(sessions: map<nat, Session>, next: nat, capacity: nat, id: nat)
    requires Good(sessions, next, capacity) && id in sessions
    ensures Settled(sessions[id])
  {
    hide Settled;
  }

  lemma OwnFdsIndexed(index: map<int, nat>, sessions: map<nat, Session>, id: nat)
    requires Indexed(index, sessions) && id in sessions
    ensures sessions[id].clientFd in index && sessions[id].upstreamFd in index
  {
  }

  lemma ArmedWithout(interests: map<int, Events>, index: map<int, nat>, sessions: map<nat, Session>, wakeFd: int,
                     id: nat)
    requires Armed(interests, index, sessions, wakeFd)
    ensures interests.Keys == index.Keys + {wakeFd} && Armed(interests, index, sessions - {id}, wakeFd)
  {
    hide ClientEvents, UpstreamEvents;
  }

  ghost function WithoutSession(t: Tables, id: nat): Tables
    requires id in t.sessions && t.active > 0
  {
    var fds := {t.sessions[id].clientFd, t.sessions[id].upstreamFd};
    t.(sessions := t.sessions - {id},
       index := t.index - fds,
       interests := t.interests - fds,
       leaving := t.leaving + {id},
       dying := t.dying + fds,
       active := t.active - 1,
       balance := t.balance - 1)
  }

  /** Everything about taking one session out of the tables. */
  lemma EntryClosed(t: Tables, id: nat)
    requires InStep(t) && id in t.sessions
    ensures t.active > 0 && InStep(WithoutSession(t, id))
  {
    hide Accounted, Armed, Indexed, Good, OutcomesAgree, Charged, Counted;
    WakeIsNobodys(t.held, t.index, t.waiting, t.dying, t.wakeFd);
    EntryGoes(t.sessions, t.index, t.interests, t.wakeFd, id, t.next, t.capacity);
    OwnFdsIndexed(t.index, t.sessions, id);
    AccountedMoves(t.held, t.index, t.waiting, t.dying, t.wakeFd, t.sessions[id]);
    BooksShrink(t, id);
  }

  /** Nobody has outlived a timeout by two seconds. */
  ghost predicate NobodyLate(sessions: map<nat, Session>, now: nat, idleTimeout: nat, connectTimeout: nat) {
    forall id | id in sessions :: !Overdue(sessions[id], now, idleTimeout + 2000, connectTimeout + 2000)
  }

  /** A session that was not overdue at the last sweep is less than two seconds late before the next. */
  lemma PunctualLater(sessions: map<nat, Session>, lastSweep: nat, now: nat, idleTimeout: nat, connectTimeout: nat)
    requires Punctual(sessions, lastSweep, idleTimeout, connectTimeout)
    ensures now - lastSweep < 2000 ==> NobodyLate(sessions, now, idleTimeout, connectTimeout)
  {
  }

  lemma NothingIndexed(index: map<int, nat>, sessions: map<nat, Session>)
    requires Indexed(index, sessions)
    ensures sessions == map[] ==> index == map[]
  {
    forall fd | fd in index ensures sessions != map[] {
      assert index[fd] in sessions;
    }
  }

  lemma NothingLeft(t: Tables)
    requires Accounted(t.held, t.index, [], {}, t.wakeFd) && Indexed(t.index, t.sessions)
    requires Armed(t.interests, t.index, t.sessions, t.wakeFd)
    requires Counted(t.sessions, t.leases, {}, t.next, t.active, t.balance) && t.sessions == map[]
    ensures t.index == map[] && t.held == {t.wakeFd} && t.interests.Keys == {t.wakeFd} && t.active == 0 == t.balance
    ensures t.leases == map[]
  {
    hide Indexed, ClientEvents, UpstreamEvents, BuffersValid;
    NothingIndexed(t.index, t.sessions);
  }

  lemma NothingWaiting(arrivals: seq<int>, handled: seq<int>, finished: nat)
    requires InOrder(arrivals, handled, [], finished)
    ensures arrivals == handled && |arrivals| == finished
  {
  }
}
