/** The main results about one session. */
module SessionTheorems {
  import opened ByteBuffers
  import opened Sessions
  import opened Traces
  import opened SessionRuns

  /** Every run, under every answer of the kernel, makes only allowed calls, and in each direction
      what was received is exactly what was sent followed by what is still buffered. */
  lemma EveryRunIsFaithful(clientFd: int, upstreamFd: int, connecting: bool, capacity: nat, now: nat,
                           inputs: seq<Input>)
    requires clientFd != upstreamFd
    ensures
      var r := Run(Start(clientFd, upstreamFd, connecting, capacity, now), inputs);
      && Legal(r.trace)
      && forall side: Side ::
           && BytesIn(r.trace, side) == BytesOut(r.trace, side.Other()) + r.From(side).buffer.data
           && |r.From(side).buffer.data| <= capacity
  {
    StartSettles(clientFd, upstreamFd, connecting, capacity, now);
    RunSettles(Start(clientFd, upstreamFd, connecting, capacity, now), inputs);
    SettledIsFaithful(Run(Start(clientFd, upstreamFd, connecting, capacity, now), inputs), Client);
    SettledIsFaithful(Run(Start(clientFd, upstreamFd, connecting, capacity, now), inputs), Upstream);
    hide Run, Settled;
  }

  lemma SettledIsFaithful(r: Session, side: Side)
    requires Settled(r)
    ensures Legal(r.trace)
    ensures BytesIn(r.trace, side) == BytesOut(r.trace, side.Other()) + r.From(side).buffer.data
    ensures |r.From(side).buffer.data| <= r.From(side).buffer.capacity
  {
    hide Legal, BytesIn, BytesOut;
  }

  /** The upstream is shut down exactly when the client's stream is over, relayed to the last byte,
      and the upstream connected; the client is shut down only by a session that ends. */
  lemma HalfCloseIsExact(clientFd: int, upstreamFd: int, connecting: bool, capacity: nat, now: nat, inputs: seq<Input>)
    requires clientFd != upstreamFd
    ensures
      var r := Run(Start(clientFd, upstreamFd, connecting, capacity, now), inputs);
      && (!r.closing ==>
            (Shutdown(Upstream) in r.trace <==>
               !Open(r.trace, Client) && BytesOut(r.trace, Upstream) == BytesIn(r.trace, Client)
                 && ConnectOk in r.trace))
      && (Shutdown(Client) in r.trace ==>
            r.closing && !Open(r.trace, Upstream) && BytesOut(r.trace, Client) == BytesIn(r.trace, Upstream))
  {
    StartSettles(clientFd, upstreamFd, connecting, capacity, now);
    RunSettles(Start(clientFd, upstreamFd, connecting, capacity, now), inputs);
    var r := Run(Start(clientFd, upstreamFd, connecting, capacity, now), inputs);
    assert BytesIn(r.trace, Client) == BytesOut(r.trace, Upstream) + r.request.buffer.data;
    assert BytesIn(r.trace, Upstream) == BytesOut(r.trace, Client) + r.response.buffer.data;
  }

  /** recv() on `side` hands out `stream` in order and reports its end only at the end. */
  ghost predicate Streams(t: seq<Call>, side: Side, stream: seq<byte>) {
    && BytesIn(t, side) <= stream
    && forall i :: 0 <= i < |t| && t[i] == Eof(side) ==> BytesIn(t[..i], side) == stream
  }

  lemma {:induction false} NothingAfterEof(t: seq<Call>, at: nat, side: Side)
    requires Legal(t) && at < |t| && t[at] == Eof(side)
    ensures BytesIn(t, side) == BytesIn(t[..at], side)
  {
    var last := |t| - 1;
    if at < last {
      var u := t[..last];
      LegalPrefix(t, last);
      NothingAfterEof(u, at, side);
      assert u[at] == Eof(side) && u[..at] == t[..at];
      assert AllowedAt(t, last);
    }
  }

  /** A direction that ended with an end of stream and was passed on as a shutdown carried the
      peer's whole stream, from the first byte to the last. */
  lemma EndToEnd(clientFd: int, upstreamFd: int, connecting: bool, capacity: nat, now: nat, inputs: seq<Input>,
                 from: Side, stream: seq<byte>)
    requires clientFd != upstreamFd
    requires
      var t := Run(Start(clientFd, upstreamFd, connecting, capacity, now), inputs).trace;
      Streams(t, from, stream) && Eof(from) in t && Shutdown(from.Other()) in t
    ensures BytesOut(Run(Start(clientFd, upstreamFd, connecting, capacity, now), inputs).trace, from.Other()) == stream
  {
    EveryRunIsFaithful(clientFd, upstreamFd, connecting, capacity, now, inputs);
    var t := Run(Start(clientFd, upstreamFd, connecting, capacity, now), inputs).trace;
    var at :| 0 <= at < |t| && t[at] == Eof(from);
    NothingAfterEof(t, at, from);
    var shut: nat :| shut < |t| && t[shut] == Shutdown(from.Other());
    ShutdownIsComplete(t, shut, from.Other());
  }

  /** A session that finished by itself delivered every response byte it received. */
  lemma CompletedDeliversAll(clientFd: int, upstreamFd: int, connecting: bool, capacity: nat, now: nat,
                             inputs: seq<Input>)
    requires clientFd != upstreamFd
    ensures
      var r := Run(Start(clientFd, upstreamFd, connecting, capacity, now), inputs);
      Completed(r) ==> r.closing && BytesOut(r.trace, Client) == BytesIn(r.trace, Upstream)
  {
    StartSettles(clientFd, upstreamFd, connecting, capacity, now);
    RunSettles(Start(clientFd, upstreamFd, connecting, capacity, now), inputs);
    var r := Run(Start(clientFd, upstreamFd, connecting, capacity, now), inputs);
    assert BytesIn(r.trace, Upstream) == BytesOut(r.trace, Client) + r.response.buffer.data;
  }

  /** In a live session each direction is over and drained, or armed at one of its ends: no
      direction waits for an event that nobody asked epoll for. */
  lemma NeverStalls(s: Session)
    requires Settled(s) && !s.closing
    requires s.request.buffer.capacity > 0 && s.response.buffer.capacity > 0
    ensures
      || (s.request.readClosed && s.request.buffer.data == [])
      || (s.request.buffer.data == [] && ClientEvents(s).input)
      || (s.request.buffer.data != [] && UpstreamEvents(s).output)
    ensures
      || (s.connecting && UpstreamEvents(s).output)
      || (s.response.buffer.data == [] && UpstreamEvents(s).input)
      || (s.response.buffer.data != [] && ClientEvents(s).output)
  {
  }

  function Settling(answers: seq<RecvAnswer>): nat {
    if answers == [] then 0
    else (if answers[0] == RecvError(Interrupted) then 0 else 1) + Settling(answers[1..])
  }

  /** One call of readInto uses at most one answer per free byte and one more, interruptions aside:
      whatever the kernel would have said later has no influence. */
  lemma {:induction false} ReadIntoIsBounded(p: Pipe, from: Side, answers: seq<RecvAnswer>, more: seq<RecvAnswer>,
                                             now: nat, progressed: bool)
    requires p.buffer.Valid() && Settling(answers) > p.buffer.capacity - |p.buffer.data|
    ensures ReadInto(p, from, answers + more, now, progressed) == ReadInto(p, from, answers, now, progressed)
    decreases |answers|
  {
    CompactedIsTight(p.buffer);
    var ready := p.(buffer := p.buffer.Compacted());
    assert (answers + more)[1..] == answers[1..] + more;
    match answers[0]
    case Got(bytes) =>
      var count := Min(|bytes|, ready.buffer.Writable());
      if count != 0 {
        ReadIntoIsBounded(ready.Received(from, bytes[..count], now), from, answers[1..], more, now, true);
      }
    case RecvError(Interrupted) => ReadIntoIsBounded(ready, from, answers[1..], more, now, progressed);
    case RecvError(_) =>
  }

  // What one call of readInto or writeFrom moves, exactly.

  /** How a socket answers that holds `unread` bytes, followed by the peer's FIN when `fin`: bytes
      in order in any portions, then end of stream or "try again", with interruptions anywhere. */
  predicate Socket(p: Pipe, from: Side, answers: seq<RecvAnswer>, unread: seq<byte>, fin: bool, now: nat)
    requires p.buffer.Valid()
    decreases |answers|
  {
    CompactedIsTight(p.buffer);
    var ready := p.(buffer := p.buffer.Compacted());
    var room := ready.buffer.Writable();
    room == 0 ||
    (answers != [] &&
     match answers[0]
     case Got(bytes) =>
       var count := Min(|bytes|, room);
       && bytes[..count] <= unread
       && (count == 0 ==> unread == [] && fin)
       && (count > 0 ==>
             Socket(ready.Received(from, bytes[..count], now), from, answers[1..], unread[count..], fin, now))
     case RecvError(Interrupted) => Socket(ready, from, answers[1..], unread, fin, now)
     case RecvError(Again) => unread == [] && !fin
     case RecvError(Fatal) => false)
  }

  /** readInto takes as many unread bytes as there are free cells, wherever the cursors stand, and
      reports the end of the stream when it has a cell left to ask with. */
  predicate Filled(p: Pipe, r: (Pipe, IoResult), unread: seq<byte>, fin: bool, progressed: bool)
    requires p.buffer.Valid()
  {
    var free := p.buffer.capacity - |p.buffer.data|;
    var count := Min(|unread|, free);
    && r.0.buffer.data == p.buffer.data + unread[..count]
    && r.1 == if fin && count < free then Closed else if progressed || count > 0 then Progress else WouldBlock
  }

  lemma {:induction false} ReadIntoFills(p: Pipe, from: Side, answers: seq<RecvAnswer>, unread: seq<byte>, fin: bool,
                                         now: nat, progressed: bool)
    requires p.buffer.Valid() && Socket(p, from, answers, unread, fin, now)
    ensures Filled(p, ReadInto(p, from, answers, now, progressed), unread, fin, progressed)
    decreases |answers|
  {
    CompactedIsTight(p.buffer);
    var ready := p.(buffer := p.buffer.Compacted());
    var room := ready.buffer.Writable();
    if room != 0 {
      match answers[0]
      case Got(bytes) =>
        var count := Min(|bytes|, room);
        if count != 0 {
          var next := ready.Received(from, bytes[..count], now);
          ReadIntoFills(next, from, answers[1..], unread[count..], fin, now, true);
          FilledInTwo(p, next, ReadInto(next, from, answers[1..], now, true), bytes[..count], unread, fin, progressed);
        }
      case RecvError(Interrupted) => ReadIntoFills(ready, from, answers[1..], unread, fin, now, progressed);
      case RecvError(_) =>
    }
  }

  lemma FilledInTwo(p: Pipe, m: Pipe, r: (Pipe, IoResult), bytes: seq<byte>, unread: seq<byte>, fin: bool,
                    progressed: bool)
    requires p.buffer.Valid() && m.buffer.Valid() && m.buffer.capacity == p.buffer.capacity
    requires bytes != [] && bytes <= unread && m.buffer.data == p.buffer.data + bytes
    requires Filled(m, r, unread[|bytes|..], fin, true)
    ensures Filled(p, r, unread, fin, progressed)
  {
    var total := Min(|unread|, p.buffer.capacity - |p.buffer.data|);
    assert unread[..total] == bytes + unread[|bytes|..][..total - |bytes|];
  }

  /** How many bytes the kernel takes before it first refuses. */
  function Taken(answers: seq<SendAnswer>): nat {
    if answers == [] then 0
    else
      match answers[0]
      case Took(count) => if count == 0 then 0 else count + Taken(answers[1..])
      case SendError(errno) => if errno.Interrupted? then Taken(answers[1..]) else 0
  }

  /** writeFrom passes on the oldest bytes, as many as the kernel takes, and keeps the others. */
  lemma {:induction false} WriteFromDrains(p: Pipe, to: Side, answers: seq<SendAnswer>, now: nat, progressed: bool)
    requires p.buffer.Valid()
    ensures WriteFrom(p, to, answers, now, progressed).0.buffer.data
              == p.buffer.data[Min(Taken(answers), |p.buffer.data|)..]
    decreases |answers|
  {
    var data := p.buffer.data;
    if data != [] && answers != [] {
      match answers[0]
      case Took(offered) =>
        var count := Min(offered, |data|);
        if count != 0 {
          WriteFromDrains(p.Delivered(to, count, now), to, answers[1..], now, true);
          assert data[count..][Min(Taken(answers[1..]), |data| - count)..] == data[Min(Taken(answers), |data|)..];
        }
      case SendError(Interrupted) => WriteFromDrains(p, to, answers[1..], now, progressed);
      case SendError(_) =>
    }
  }

  // The hangup branch: the read side is also closed when a hangup flag meets a buffer that is full.

  lemma ReadsAPrefix(p: Pipe, from: Side, answers: seq<RecvAnswer>, unread: seq<byte>, fin: bool, now: nat,
                     sent: seq<byte>)
    requires p.buffer.Valid() && Socket(p, from, answers, unread, fin, now)
    requires BytesIn(p.trace, from) == sent + p.buffer.data
    ensures
      var r := ReadInto(p, from, answers, now, false);
      && Filled(p, r, unread, fin, false)
      && BytesIn(r.0.trace, from)
           == BytesIn(p.trace, from) + unread[..Min(|unread|, p.buffer.capacity - |p.buffer.data|)]
  {
    var taken := unread[..Min(|unread|, p.buffer.capacity - |p.buffer.data|)];
    ReadIntoFills(p, from, answers, unread, fin, now, false);
    ReadIntoLogs(p, from, answers, now, false, sent);
    assert sent + (p.buffer.data + taken) == sent + p.buffer.data + taken;
  }

  /** On a hangup event the read side is closed with bytes of the peer still unread exactly when the
      buffer was full before the event and such bytes remained. */
  lemma HangupLosesIffFull(s: Session, from: Side, events: Events, answers: Answers, unread: seq<byte>)
    requires Settled(s) && !s.From(from).readClosed && events.PeerHangup()
    requires Socket(s.PipeFrom(from), from, answers.recvs, unread, true, answers.now)
    ensures
      var r := Pull(s, from, events, answers);
      (r.From(from).readClosed && BytesIn(r.trace, from) != BytesIn(s.trace, from) + unread)
      <==> (|s.From(from).buffer.data| == s.From(from).buffer.capacity && unread != [])
  {
    SettledIsFaithful(s, from);
    hide Socket, ReadInto, BytesIn, BytesOut, Legal, Settled;
    var flow := s.From(from).buffer;
    var (pipe, result) := ReadInto(s.PipeFrom(from), from, answers.recvs, answers.now, false);
    var count := Min(|unread|, flow.capacity - |flow.data|);
    ReadsAPrefix(s.PipeFrom(from), from, answers.recvs, unread, true, answers.now, BytesOut(s.trace, from.Other()));
    Snoc(pipe.trace, HungUp(from), from);
    if count < |unread| {
      assert |BytesIn(pipe.trace, from)| < |BytesIn(s.trace, from) + unread|;
    } else {
      assert unread[..count] == unread;
    }
  }

  lemma ReadSideStays(s: Session, from: Side, events: Events, answers: Answers)
    requires BuffersValid(s)
    ensures Settle(Push(s, from, events, answers)).From(from).readClosed == s.From(from).readClosed
  {
    hide WriteFrom;
  }

  /** The same for a whole event: on either side, whatever else the event asks for. */
  lemma HangupEventLosesIffFull(s: Session, from: Side, events: Events, answers: Answers, unread: seq<byte>)
    requires Settled(s) && !s.closing && !s.From(from).readClosed && (from.Upstream? ==> !s.connecting)
    requires events.PeerHangup() && !events.error
    requires Socket(s.PipeFrom(from), from, answers.recvs, unread, true, answers.now)
    ensures
      var r := Handle(s, if from.Client? then s.clientFd else s.upstreamFd, events, answers);
      (r.From(from).readClosed && BytesIn(r.trace, from) != BytesIn(s.trace, from) + unread)
      <==> (|s.From(from).buffer.data| == s.From(from).buffer.capacity && unread != [])
  {
    assert BuffersValid(s);
    assert Admit(s, if from.Client? then s.clientFd else s.upstreamFd, events, answers) == s;
    assert s.clientFd != s.upstreamFd;
    hide Pull, WriteFrom, BytesIn, Settled, Socket, Legal;
    var m := Pull(s, from, events, answers);
    HangupLosesIffFull(s, from, events, answers, unread);
    PushGainsNothing(m, from, events, answers, from);
    ReadSideStays(m, from, events, answers);
  }

  // What a hangup flag does by itself: it stays armed and is level-triggered, so epoll repeats it.

  lemma {:induction false} ProgressIsLogged(p: Pipe, from: Side, answers: seq<RecvAnswer>, now: nat, progressed: bool)
    requires p.buffer.Valid()
    ensures
      var r := ReadInto(p, from, answers, now, progressed);
      |r.0.trace| >= |p.trace| && (r.1.Progress? && !progressed ==> |r.0.trace| > |p.trace|)
    decreases |answers|
  {
    CompactedIsTight(p.buffer);
    var ready := p.(buffer := p.buffer.Compacted());
    if ready.buffer.Writable() != 0 && answers != [] {
      match answers[0]
      case Got(bytes) =>
        var count := Min(|bytes|, ready.buffer.Writable());
        if count != 0 {
          ProgressIsLogged(ready.Received(from, bytes[..count], now), from, answers[1..], now, true);
        }
      case RecvError(Interrupted) => ProgressIsLogged(ready, from, answers[1..], now, progressed);
      case RecvError(_) =>
    }
  }

  /** An event that carries only hangup flags leaves an open session exactly as it was if and only if
      the read side is closed already, or the flag is a half-close before the connect has an outcome.
      The flag is armed all the same, so epoll keeps reporting it until the session ends. */
  lemma HangupIsIdleIff(s: Session, from: Side, events: Events, answers: Answers)
    requires Settled(s) && !s.closing
    requires events.PeerHangup() && !events.input && !events.output && !events.error
    ensures
      Handle(s, if from.Client? then s.clientFd else s.upstreamFd, events, answers) == s
      <==> s.From(from).readClosed || (from.Upstream? && s.connecting && !events.hangup)
    ensures ClientEvents(s).readHangup && UpstreamEvents(s).readHangup
  {
    hide ReadInto, BytesIn, BytesOut, Legal;
    ProgressIsLogged(s.PipeFrom(from), from, answers.recvs, answers.now, false);
  }

  // A run that loses the tail of a request, for every capacity and every stream that exceeds it: the
  // buffer fills, the hangup is reported while it is full, and what it holds leaves.

  function Stage(clientFd: int, upstreamFd: int, buffers: (Buffer, Buffer), ended: bool, shut: bool, now: nat,
                 trace: seq<Call>): Session {
    Session(clientFd, upstreamFd, false, Flow(buffers.0, ended, shut), Flow(buffers.1, false, false), false, now, now,
            trace)
  }

  function LosingRun(clientFd: int, upstreamFd: int, capacity: nat, now: nat, stream: seq<byte>): seq<Input> {
    [Input(clientFd, Events(true, false, false, false, false), Answers(true, now, [Got(stream)], [])),
     Input(clientFd, Events(false, false, false, false, true), Answers(true, now, [], [])),
     Input(upstreamFd, Events(false, true, false, false, false), Answers(true, now, [], [Took(capacity)]))]
  }

  lemma BufferFills(clientFd: int, upstreamFd: int, capacity: nat, now: nat, stream: seq<byte>)
    requires clientFd != upstreamFd && 1 <= capacity < |stream|
    ensures
      var arrival := LosingRun(clientFd, upstreamFd, capacity, now, stream)[0];
      Handle(Start(clientFd, upstreamFd, false, capacity, now), arrival.fd, arrival.events, arrival.answers)
      == Stage(clientFd, upstreamFd, (Buffer(capacity, 0, stream[..capacity]), Buffer(capacity, 0, [])),
               false, false, now, [ConnectOk, Recv(Client, stream[..capacity])])
  {
    var full := Pipe(Buffer(capacity, 0, stream[..capacity]), [ConnectOk, Recv(Client, stream[..capacity])], now);
    var empty := Pipe(Buffer(capacity, 0, []), [ConnectOk], now);
    assert [] + stream[..capacity] == stream[..capacity];
    assert [ConnectOk] + [Recv(Client, stream[..capacity])] == [ConnectOk, Recv(Client, stream[..capacity])];
    assert [Got(stream)][1..] == [];
    assert ReadInto(full, Client, [], now, true) == (full, Progress);
    assert empty.Received(Client, stream[..capacity], now) == full;
    assert ReadInto(empty, Client, [Got(stream)], now, false) == (full, Progress);
  }

  lemma HangupIsTakenForTheEnd(clientFd: int, upstreamFd: int, capacity: nat, now: nat, stream: seq<byte>)
    requires clientFd != upstreamFd && 1 <= capacity < |stream|
    ensures
      var hangup := LosingRun(clientFd, upstreamFd, capacity, now, stream)[1];
      var buffers := (Buffer(capacity, 0, stream[..capacity]), Buffer(capacity, 0, []));
      var trace := [ConnectOk, Recv(Client, stream[..capacity])];
      Handle(Stage(clientFd, upstreamFd, buffers, false, false, now, trace), hangup.fd, hangup.events, hangup.answers)
      == Stage(clientFd, upstreamFd, buffers, true, false, now, trace + [HungUp(Client)])
  {
  }

  lemma BufferLeaves(clientFd: int, upstreamFd: int, capacity: nat, now: nat, stream: seq<byte>)
    requires clientFd != upstreamFd && 1 <= capacity < |stream|
    ensures
      var drain := LosingRun(clientFd, upstreamFd, capacity, now, stream)[2];
      var data, empty := stream[..capacity], Buffer(capacity, 0, []);
      var trace := [ConnectOk, Recv(Client, data), HungUp(Client)];
      Handle(Stage(clientFd, upstreamFd, (Buffer(capacity, 0, data), empty), true, false, now, trace), drain.fd,
             drain.events, drain.answers)
      == Stage(clientFd, upstreamFd, (empty, empty), true, true, now,
               trace + [Send(Upstream, data)] + [Shutdown(Upstream)])
  {
    var data, trace := stream[..capacity], [ConnectOk, Recv(Client, stream[..capacity]), HungUp(Client)];
    var held := Pipe(Buffer(capacity, 0, data), trace, now);
    var gone := Pipe(Buffer(capacity, 0, []), trace + [Send(Upstream, data)], now);
    assert data[..capacity] == data && data[capacity..] == [];
    assert [Took(capacity)][1..] == [];
    assert held.Delivered(Upstream, capacity, now) == gone;
    assert WriteFrom(held, Upstream, [Took(capacity)], now, false) == (gone, Progress);
  }

  lemma BytesOfTheRun(data: seq<byte>, t: seq<Call>)
    requires t == [ConnectOk, Recv(Client, data), HungUp(Client)] + [Send(Upstream, data)] + [Shutdown(Upstream)]
    ensures BytesIn(t, Client) == data && BytesOut(t, Upstream) == data
  {
    var t1, t2 := [ConnectOk], [ConnectOk, Recv(Client, data)];
    var t3, t4 := t2 + [HungUp(Client)], [ConnectOk, Recv(Client, data), HungUp(Client)] + [Send(Upstream, data)];
    assert BytesIn(t1, Client) == [] && BytesOut(t1, Upstream) == [];
    hide BytesIn, BytesOut;
    assert t1 + [Recv(Client, data)] == t2 && t3 + [Send(Upstream, data)] == t4 && t == t4 + [Shutdown(Upstream)];
    Snoc(t1, Recv(Client, data), Client);
    Snoc(t1, Recv(Client, data), Upstream);
    Snoc(t2, HungUp(Client), Client);
    Snoc(t2, HungUp(Client), Upstream);
    Snoc(t3, Send(Upstream, data), Client);
    Snoc(t3, Send(Upstream, data), Upstream);
    Snoc(t4, Shutdown(Upstream), Client);
    Snoc(t4, Shutdown(Upstream), Upstream);
  }

  /** Without the premise on how the direction ended, end-to-end completeness fails: for every buffer
      and every request longer than it, the upstream can be told that the request is over after its
      first buffer-full. */
  lemma HangupLosesBytes(clientFd: int, upstreamFd: int, capacity: nat, now: nat, stream: seq<byte>)
    requires clientFd != upstreamFd && 1 <= capacity < |stream|
    ensures
      var t := Run(Start(clientFd, upstreamFd, false, capacity, now),
                   LosingRun(clientFd, upstreamFd, capacity, now, stream)).trace;
      && Streams(t, Client, stream) && HungUp(Client) in t && Shutdown(Upstream) in t
      && BytesIn(t, Client) == BytesOut(t, Upstream) == stream[..capacity]
  {
    hide Handle, BytesIn, BytesOut;
    var s := Start(clientFd, upstreamFd, false, capacity, now);
    var run := LosingRun(clientFd, upstreamFd, capacity, now, stream);
    BufferFills(clientFd, upstreamFd, capacity, now, stream);
    HangupIsTakenForTheEnd(clientFd, upstreamFd, capacity, now, stream);
    BufferLeaves(clientFd, upstreamFd, capacity, now, stream);
    assert [ConnectOk, Recv(Client, stream[..capacity])] + [HungUp(Client)]
      == [ConnectOk, Recv(Client, stream[..capacity]), HungUp(Client)];
    assert run[..3] == run && run[..3][..2] == run[..2] && run[..2][..1] == run[..1] && run[..1][..0] == [];
    assert Run(s, run[..1]) == Handle(s, run[0].fd, run[0].events, run[0].answers);
    assert Run(s, run[..2]) == Handle(Run(s, run[..1]), run[1].fd, run[1].events, run[1].answers);
    assert Run(s, run) == Handle(Run(s, run[..2]), run[2].fd, run[2].events, run[2].answers);
    BytesOfTheRun(stream[..capacity], Run(s, run).trace);
  }
}
