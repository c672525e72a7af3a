/** What becomes of the clients a worker fetches, as a function of what the pool and the kernel answer. */
module Intakes {
  import opened Sessions

  /** The answers while one client is given a session: the pool has no healthy backend; connecting to
      the backend throws; epoll refuses one of the descriptors; or nothing goes wrong. */
  datatype Opening =
    | NoBackend
    | ConnectThrew(backend: nat)
    | EpollRefused(backend: nat, fd: int, connecting: bool)
    | Opened(backend: nat, fd: int, connecting: bool)

  /** The descriptors named in a list of answers. */
  function Fds(openings: seq<Opening>): set<int> {
    set o | o in openings && (o.EpollRefused? || o.Opened?) :: o.fd
  }

  /** A backend outside the pool is none, and no descriptor is handed out while it is open. */
  function Real(o: Opening, held: set<int>, backends: nat): Opening {
    if o.NoBackend? || o.backend >= backends then NoBackend
    else if (o.EpollRefused? || o.Opened?) && o.fd in held then ConnectThrew(o.backend)
    else o
  }

  /** A list of answers that runs out goes on with "no backend". */
  function AnswerTo(openings: seq<Opening>, k: nat): Opening {
    if k < |openings| then openings[k] else NoBackend
  }

  /** The sessions opened for some clients, with their leases, and what else changed meanwhile. */
  datatype Intake = Intake(next: nat, sessions: map<nat, Session>, leases: map<nat, nat>, failed: seq<nat>,
                           held: set<int>, rejected: nat)

  function Seat(i: Intake, client: int, o: Opening, capacity: nat, now: nat): Intake {
    Answered(i, client, Real(o, i.held, |i.failed|), capacity, now)
  }

  predicate Names(o: Opening, backends: nat) {
    o.NoBackend? || o.backend < backends
  }

  function Answered(i: Intake, client: int, o: Opening, capacity: nat, now: nat): Intake
    requires Names(o, |i.failed|)
  {
    match o
    case NoBackend => i.(held := i.held - {client}, rejected := i.rejected + 1)
    case ConnectThrew(b) =>
      i.(failed := i.failed[b := i.failed[b] + 1], held := i.held - {client}, rejected := i.rejected + 1)
    case EpollRefused(_, _, _) => i.(next := i.next + 1, held := i.held - {client}, rejected := i.rejected + 1)
    case Opened(b, fd, connecting) =>
      i.(next := i.next + 1,
         sessions := i.sessions[i.next := Start(client, fd, connecting, capacity, now)],
         leases := i.leases[i.next := b],
         held := i.held + {fd})
  }

  function SeatAll(i: Intake, clients: seq<int>, openings: seq<Opening>, capacity: nat, now: nat): Intake {
    if clients == [] then i
    else
      var last := |clients| - 1;
      Seat(SeatAll(i, clients[..last], openings, capacity, now), clients[last], AnswerTo(openings, last), capacity,
            now)
  }

  /** The first `count` answers name healthy backends of the pool and different free descriptors, and
      nothing goes wrong. */
  predicate AllGoesWell(openings: seq<Opening>, count: nat, held: set<int>, backends: nat) {
    && count <= |openings|
    && (forall k | 0 <= k < count :: openings[k].Opened? && openings[k].backend < backends && openings[k].fd !in held)
    && forall j, k | 0 <= j < k < count :: openings[j].fd != openings[k].fd
  }

  predicate Owns(r: Intake, id: nat, client: int, o: Opening, capacity: nat, now: nat) {
    && o.Opened? && id in r.sessions && id in r.leases
    && r.sessions[id] == Start(client, o.fd, o.connecting, capacity, now) && r.leases[id] == o.backend
  }

  /** When all goes well every client owns a session, in order, on the backend that was picked for it;
      nobody is rejected and no failure is counted. */
  lemma {:induction false} AllAreServed(i: Intake, clients: seq<int>, openings: seq<Opening>, count: nat, capacity: nat,
                                        now: nat)
    requires |clients| <= count && AllGoesWell(openings, count, i.held, |i.failed|)
    ensures
      var r := SeatAll(i, clients, openings, capacity, now);
      && r.next == i.next + |clients| && r.rejected == i.rejected && r.failed == i.failed
      && (forall k | |clients| <= k < count :: openings[k].fd !in r.held)
      && forall k | 0 <= k < |clients| :: Owns(r, i.next + k, clients[k], openings[k], capacity, now)
  {
    hide Start;
    if clients != [] {
      var last := |clients| - 1;
      AllAreServed(i, clients[..last], openings, count, capacity, now);
      var m := SeatAll(i, clients[..last], openings, capacity, now);
      assert Real(AnswerTo(openings, last), m.held, |m.failed|) == openings[last];
      hide Real;
      var r := Seat(m, clients[last], openings[last], capacity, now);
      forall k | 0 <= k < last ensures Owns(r, i.next + k, clients[k], openings[k], capacity, now) {
        assert Owns(m, i.next + k, clients[..last][k], openings[k], capacity, now);
      }
    }
  }

  function Throws(i: Intake, clients: seq<int>, openings: seq<Opening>, capacity: nat, now: nat, b: nat): nat {
    if clients == [] then 0
    else
      var last := |clients| - 1;
      var m := SeatAll(i, clients[..last], openings, capacity, now);
      Throws(i, clients[..last], openings, capacity, now, b) +
      if Real(AnswerTo(openings, last), m.held, |m.failed|) == ConnectThrew(b) then 1 else 0
  }

  /** Each client is opened or rejected, and a backend's failures are the connects to it that threw. */
  lemma {:induction false} EachIsCounted(i: Intake, clients: seq<int>, openings: seq<Opening>, capacity: nat, now: nat)
    requires forall id | id in i.sessions :: id < i.next
    ensures
      var r := SeatAll(i, clients, openings, capacity, now);
      && |r.sessions| + r.rejected == |i.sessions| + i.rejected + |clients|
      && (forall id | id in r.sessions :: id < r.next && (id in i.sessions || id >= i.next))
      && (i.leases.Keys == i.sessions.Keys ==> r.leases.Keys == r.sessions.Keys)
      && i.next <= r.next <= i.next + |clients| && |r.failed| == |i.failed|
      && forall b | 0 <= b < |i.failed| ::
           r.failed[b] == i.failed[b] + Throws(i, clients, openings, capacity, now, b)
  {
    hide Start;
    if clients != [] {
      var last := |clients| - 1;
      EachIsCounted(i, clients[..last], openings, capacity, now);
    }
  }

  ghost predicate Agree(h: set<int>, g: set<int>, fds: set<int>) {
    forall fd | fd in fds :: fd in h <==> fd in g
  }

  /** Only the descriptors that the answers name matter. */
  lemma {:induction false} SameIntake(i: Intake, j: Intake, clients: seq<int>, openings: seq<Opening>, capacity: nat,
                                      now: nat)
    requires |i.failed| == |j.failed| && Agree(i.held, j.held, Fds(openings))
    requires i.(failed := j.failed, held := j.held) == j
    ensures
      var r, q := SeatAll(i, clients, openings, capacity, now), SeatAll(j, clients, openings, capacity, now);
      && |r.failed| == |q.failed| && Agree(r.held, q.held, Fds(openings))
      && r.(failed := q.failed, held := q.held) == q
  {
    hide Start;
    if clients != [] {
      var last := |clients| - 1;
      SameIntake(i, j, clients[..last], openings, capacity, now);
      var o := AnswerTo(openings, last);
      assert o.EpollRefused? || o.Opened? ==> o.fd in Fds(openings);
    }
  }

  // How a worker's tables follow.

  /** The parts of a worker's state that clients change. */
  datatype Desk = Desk(sessions: map<nat, Session>, leases: map<nat, nat>, failed: seq<nat>, next: nat, rejected: nat,
                       created: nat)

  function Begin(d: Desk, held: set<int>): Intake {
    Intake(d.next, map[], map[], d.failed, held, 0)
  }

  /** One client was answered `o`, with these descriptors open. */
  predicate Seated(d: Desk, held: set<int>, client: int, o: Opening, d': Desk, held': set<int>, capacity: nat,
                   now: nat) {
    SeatedBy(d, held, client, Real(o, held, |d.failed|), d', held', capacity, now)
  }

  predicate SeatedBy(d: Desk, held: set<int>, client: int, o: Opening, d': Desk, held': set<int>, capacity: nat,
                     now: nat)
    requires Names(o, |d.failed|)
  {
    match o
    case NoBackend => d' == d.(rejected := d.rejected + 1) && held' == held - {client}
    case ConnectThrew(b) =>
      d' == d.(failed := d.failed[b := d.failed[b] + 1], rejected := d.rejected + 1) && held' == held - {client}
    case EpollRefused(_, _, _) =>
      d' == d.(next := d.next + 1, rejected := d.rejected + 1) && held' == held - {client}
    case Opened(b, fd, connecting) =>
      && d'.sessions == d.sessions[d.next := Start(client, fd, connecting, capacity, now)]
      && d'.leases == d.leases[d.next := b]
      && d' == d.(sessions := d'.sessions, leases := d'.leases, next := d.next + 1, created := d.created + 1)
      && held' == held + {fd}
  }

  predicate Admitted(d: Desk, d': Desk, i: Intake) {
    && d'.sessions == d.sessions + i.sessions && d'.leases == d.leases + i.leases
    && d'.failed == i.failed && d'.next == i.next
    && d'.rejected == d.rejected + i.rejected && d'.created == d.created + |i.sessions|
  }

  /** The answers that are left after the first k. */
  function Later(openings: seq<Opening>, k: nat): seq<Opening> {
    if k < |openings| then openings[k..] else []
  }

  lemma LaterFds(openings: seq<Opening>, k: nat)
    ensures Fds(Later(openings, k + 1)) <= Fds(Later(openings, k))
    ensures
      var o := AnswerTo(openings, k);
      o.EpollRefused? || o.Opened? ==> o.fd in Fds(Later(openings, k))
  {
    if k < |openings| {
      assert openings[k..] == [openings[k]] + Later(openings, k + 1);
    }
  }

  /** One more client, while other threads may have opened descriptors that no later answer names. */
  lemma OneMoreSeated(d: Desk, d1: Desk, d2: Desk, i: Intake, client: int, openings: seq<Opening>, k: nat,
                      held: set<int>, held': set<int>, capacity: nat, now: nat)
    requires Admitted(d, d1, i) && d1.next !in d1.sessions
    requires Seated(d1, held, client, AnswerTo(openings, k), d2, held', capacity, now)
    requires Agree(held, i.held, Fds(Later(openings, k)))
    ensures Admitted(d, d2, Seat(i, client, AnswerTo(openings, k), capacity, now))
    ensures Agree(held', Seat(i, client, AnswerTo(openings, k), capacity, now).held, Fds(Later(openings, k + 1)))
  {
    hide Start, Later, Fds, AnswerTo;
    var o := AnswerTo(openings, k);
    LaterFds(openings, k);
    OneSeated(d, d1, d2, i, client, o, held, held', capacity, now);
  }

  lemma OneSeated(d: Desk, d1: Desk, d2: Desk, i: Intake, client: int, o: Opening, held: set<int>, held': set<int>,
                  capacity: nat, now: nat)
    requires Admitted(d, d1, i) && d1.next !in d1.sessions
    requires Seated(d1, held, client, o, d2, held', capacity, now)
    requires o.EpollRefused? || o.Opened? ==> (o.fd in held <==> o.fd in i.held)
    ensures Admitted(d, d2, Seat(i, client, o, capacity, now))
    ensures forall fd | fd in held <==> fd in i.held :: fd in held' <==> fd in Seat(i, client, o, capacity, now).held
  {
    var actual := Real(o, held, |d1.failed|);
    assert actual == Real(o, i.held, |i.failed|);
    if actual.Opened? {
      OneOpened(d, d1, d2, i, client, actual, held, held', capacity, now);
    } else {
      OneRefused(d, d1, d2, i, client, actual, held, held', capacity, now);
    }
  }

  lemma OneRefused(d: Desk, d1: Desk, d2: Desk, i: Intake, client: int, o: Opening, held: set<int>, held': set<int>,
                   capacity: nat, now: nat)
    requires Admitted(d, d1, i) && Names(o, |i.failed|) && !o.Opened?
    requires SeatedBy(d1, held, client, o, d2, held', capacity, now)
    ensures Admitted(d, d2, Answered(i, client, o, capacity, now))
    ensures forall fd | fd in held <==> fd in i.held ::
              fd in held' <==> fd in Answered(i, client, o, capacity, now).held
  {
  }

  lemma OneOpened(d: Desk, d1: Desk, d2: Desk, i: Intake, client: int, o: Opening, held: set<int>, held': set<int>,
                  capacity: nat, now: nat)
    requires Admitted(d, d1, i) && d1.next !in d1.sessions && Names(o, |i.failed|) && o.Opened?
    requires SeatedBy(d1, held, client, o, d2, held', capacity, now)
    ensures Admitted(d, d2, Answered(i, client, o, capacity, now))
    ensures forall fd | fd in held <==> fd in i.held ::
              fd in held' <==> fd in Answered(i, client, o, capacity, now).held
  {
    hide Start;
    var s := Start(client, o.fd, o.connecting, capacity, now);
    Merged(d.sessions, i.sessions, i.next, s);
    Merged(d.leases, i.leases, i.next, o.backend);
  }

  lemma Merged<V>(a: map<nat, V>, b: map<nat, V>, id: nat, v: V)
    ensures (a + b)[id := v] == a + b[id := v]
    ensures id !in a + b ==> |b[id := v]| == |b| + 1
  {
    assert b[id := v].Keys == b.Keys + {id};
    assert |b[id := v]| == |b[id := v].Keys| && |b| == |b.Keys|;
  }

  /** A queue of clients was dealt with: all of them, but for the last `dropped` ones if the worker was
      stopped meanwhile, got what the answers say. */
  ghost predicate QueueServed(d: Desk, held: set<int>, clients: seq<int>, openings: seq<Opening>, d': Desk,
                              dropped: int, running: bool, capacity: nat, now: nat) {
    && 0 <= dropped <= |clients| && (running ==> dropped == 0)
    && Admitted(d, d', SeatAll(Begin(d, held), clients[..|clients| - dropped], openings, capacity, now))
  }

  /** The same, while sessions that were there before may have changed or gone. */
  ghost predicate Welcomed(d: Desk, d': Desk, i: Intake) {
    && d'.next == i.next && d'.rejected == d.rejected + i.rejected && d'.created == d.created + |i.sessions|
    && (forall id | id in i.sessions ::
          && id !in d.sessions && id in d'.sessions && d'.sessions[id] == i.sessions[id]
          && id in i.leases && id in d'.leases && d'.leases[id] == i.leases[id])
    && forall id | id in d'.sessions :: id in d.sessions || id in i.sessions
  }

  ghost predicate BatchServed(d: Desk, held: set<int>, clients: seq<int>, openings: seq<Opening>, d': Desk,
                              dropped: int, running: bool, capacity: nat, now: nat) {
    && 0 <= dropped <= |clients| && (running ==> dropped == 0)
    && Welcomed(d, d', SeatAll(Begin(d, held), clients[..|clients| - dropped], openings, capacity, now))
  }

  lemma NobodyYet(d: Desk, held: set<int>, openings: seq<Opening>, running: bool, capacity: nat, now: nat)
    ensures BatchServed(d, held, [], openings, d, 0, running, capacity, now)
  {
  }

  /** The sessions that were there, and nothing else, may have changed. */
  predicate OthersChanged(d: Desk, d': Desk, d'': Desk) {
    && d''.next == d'.next && d''.rejected == d'.rejected && d''.created == d'.created && d''.leases == d'.leases
    && d''.sessions.Keys == d'.sessions.Keys
    && forall id | id in d'.sessions && id !in d.sessions :: d''.sessions[id] == d'.sessions[id]
  }

  lemma ServedStill(d: Desk, held: set<int>, clients: seq<int>, openings: seq<Opening>, d': Desk, d'': Desk,
                    dropped: int, running: bool, running': bool, capacity: nat, now: nat)
    requires BatchServed(d, held, clients, openings, d', dropped, running, capacity, now) && (running' ==> running)
    requires OthersChanged(d, d', d'')
    ensures BatchServed(d, held, clients, openings, d'', dropped, running', capacity, now)
  {
    hide SeatAll;
  }

  /** Old sessions may be closed as well, and give back their leases. */
  lemma ServedLater(d: Desk, held: set<int>, clients: seq<int>, openings: seq<Opening>, d': Desk, d'': Desk,
                    dropped: int, running: bool, capacity: nat, now: nat)
    requires BatchServed(d, held, clients, openings, d', dropped, running, capacity, now)
    requires d''.next == d'.next && d''.rejected == d'.rejected && d''.created == d'.created
    requires d''.sessions.Keys <= d'.sessions.Keys && d''.leases.Keys == d''.sessions.Keys
    requires forall id | id in d'.sessions && id !in d.sessions ::
               && id in d''.sessions && d''.sessions[id] == d'.sessions[id]
               && (id in d'.leases ==> d''.leases[id] == d'.leases[id])
    ensures BatchServed(d, held, clients, openings, d'', dropped, running, capacity, now)
  {
    hide SeatAll;
  }

  /** After a time in which only old sessions changed, a queue was dealt with. */
  lemma ServedNow(d: Desk, held: set<int>, d1: Desk, held1: set<int>, clients: seq<int>, openings: seq<Opening>,
                  d2: Desk, dropped: int, running: bool, capacity: nat, now: nat)
    requires OthersChanged(d, d, d1) && |d1.failed| == |d.failed| && Agree(held1, held, Fds(openings))
    requires forall id | id in d1.sessions :: id < d1.next
    requires QueueServed(d1, held1, clients, openings, d2, dropped, running, capacity, now)
    ensures BatchServed(d, held, clients, openings, d2, dropped, running, capacity, now)
  {
    hide SeatAll, Fds;
    var served := clients[..|clients| - dropped];
    SameIntake(Begin(d1, held1), Begin(d, held), served, openings, capacity, now);
    EachIsCounted(Begin(d1, held1), served, openings, capacity, now);
  }

  /** When all goes well, every client that was fetched owns a session. */
  lemma ServedAll(d: Desk, held: set<int>, clients: seq<int>, openings: seq<Opening>, d': Desk, dropped: int,
                  capacity: nat, now: nat)
    requires BatchServed(d, held, clients, openings, d', dropped, true, capacity, now)
    requires AllGoesWell(openings, |clients|, held, |d.failed|)
    ensures forall k | 0 <= k < |clients| :: Has(d', d.next + k, clients[k], openings[k], capacity, now)
  {
    hide SeatAll, Start;
    assert clients[..|clients| - dropped] == clients;
    AllAreServed(Begin(d, held), clients, openings, |clients|, capacity, now);
    var i := SeatAll(Begin(d, held), clients, openings, capacity, now);
    forall k | 0 <= k < |clients| ensures Has(d', d.next + k, clients[k], openings[k], capacity, now) {
      assert Owns(i, Begin(d, held).next + k, clients[k], openings[k], capacity, now);
    }
  }

  predicate Has(d: Desk, id: nat, client: int, o: Opening, capacity: nat, now: nat) {
    && o.Opened? && id in d.sessions && id in d.leases
    && d.sessions[id] == Start(client, o.fd, o.connecting, capacity, now) && d.leases[id] == o.backend
  }

  // The loop over the local queue.

  /** After k clients, the last `dropped` of which were thrown away. */
  ghost predicate UpTo(d: Desk, open: set<int>, clients: seq<int>, openings: seq<Opening>, k: nat, dropped: int,
                       d': Desk, held: set<int>, running: bool, capacity: nat, now: nat) {
    && k <= |clients| && 0 <= dropped <= k && (running ==> dropped == 0)
    && var i := SeatAll(Begin(d, open), clients[..k - dropped], openings, capacity, now);
       Admitted(d, d', i) && (running ==> Agree(held, i.held, Fds(Later(openings, k))))
  }

  lemma UpToBegins(d: Desk, open: set<int>, clients: seq<int>, openings: seq<Opening>, running: bool, capacity: nat,
                   now: nat)
    ensures UpTo(d, open, clients, openings, 0, 0, d, open, running, capacity, now)
  {
  }

  lemma UpToNext(d: Desk, open: set<int>, clients: seq<int>, openings: seq<Opening>, k: nat, dropped: int, was: Desk,
                 had: set<int>, ran: bool, at: set<int>, d': Desk, held: set<int>, running: bool, capacity: nat,
                 now: nat)
    requires UpTo(d, open, clients, openings, k, dropped, was, had, ran, capacity, now) && k < |clients|
    requires was.next !in was.sessions && (running ==> ran) && Agree(at, had, Fds(Later(openings, k)))
    requires if running then Seated(was, at, clients[k], AnswerTo(openings, k), d', held, capacity, now) else d' == was
    ensures
      var dropped' := dropped + if running then 0 else 1;
      UpTo(d, open, clients, openings, k + 1, dropped', d', held, running, capacity, now)
  {
    hide Admitted, Seated, Later, Fds, AnswerTo, Seat;
    if running {
      var i := SeatAll(Begin(d, open), clients[..k], openings, capacity, now);
      OneMoreSeated(d, was, d', i, clients[k], openings, k, at, held, capacity, now);
      SeatSnoc(Begin(d, open), clients, k, openings, capacity, now);
    }
  }

  lemma SeatSnoc(i: Intake, clients: seq<int>, k: nat, openings: seq<Opening>, capacity: nat, now: nat)
    requires k < |clients|
    ensures SeatAll(i, clients[..k + 1], openings, capacity, now)
         == Seat(SeatAll(i, clients[..k], openings, capacity, now), clients[k], AnswerTo(openings, k), capacity, now)
  {
    hide Seat;
    assert clients[..k + 1][..k] == clients[..k];
  }

  lemma UpToEnds(d: Desk, open: set<int>, clients: seq<int>, openings: seq<Opening>, dropped: int, d': Desk,
                 held: set<int>, running: bool, capacity: nat, now: nat)
    requires UpTo(d, open, clients, openings, |clients|, dropped, d', held, running, capacity, now)
    ensures QueueServed(d, open, clients, openings, d', dropped, running, capacity, now)
  {
  }
}
