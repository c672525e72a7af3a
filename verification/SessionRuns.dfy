/** What holds of a session over every sequence of events and every answer of the kernel. */
module SessionRuns {
  import opened ByteBuffers
  import opened Sessions
  import opened Traces

  datatype Input = Input(fd: int, events: Events, answers: Answers)

  function Run(s: Session, inputs: seq<Input>): (r: Session)
    requires BuffersValid(s)
    ensures BuffersValid(r)
  {
    if inputs == [] then s
    else
      var last := inputs[|inputs| - 1];
      Handle(Run(s, inputs[..|inputs| - 1]), last.fd, last.events, last.answers)
  }

  /** What a trace says about the direction that starts at one side. */
  datatype Past = Past(received: seq<byte>, sent: seq<byte>, ended: bool, shut: bool)

  function PastOf(t: seq<Call>, from: Side): Past {
    Past(BytesIn(t, from), BytesOut(t, from.Other()), !Open(t, from), Shutdown(from.Other()) in t)
  }

  /** The bytes received are the bytes sent followed by the bytes still buffered; the flags say what
      the trace says; a direction is only shut down once it is over and drained. */
  predicate Agrees(flow: Flow, past: Past) {
    && flow.buffer.Valid()
    && past.received == past.sent + flow.buffer.data
    && flow.readClosed == past.ended
    && flow.writeShutdown == past.shut
    && (flow.writeShutdown ==> flow.readClosed && flow.buffer.data == [])
  }

  /** Holds at every moment, also between two calls of one event. */
  ghost predicate Sound(s: Session) {
    && s.clientFd != s.upstreamFd
    && Agrees(s.request, PastOf(s.trace, Client))
    && Agrees(s.response, PastOf(s.trace, Upstream))
    && Legal(s.trace)
    && (s.connecting <==> ConnectOk !in s.trace)
    && (ConnectFailed in s.trace ==> s.connecting && s.closing)
    && (s.connecting ==> !s.request.writeShutdown && !s.response.readClosed && s.response.buffer.data == [])
  }

  /** The upstream is shut down as soon as, and only when, the request stream is over and relayed. */
  ghost predicate Prompt(s: Session) {
    s.request.writeShutdown <==> s.request.readClosed && s.request.buffer.data == [] && !s.connecting
  }

  /** Holds between events. */
  ghost predicate Settled(s: Session) {
    && Sound(s)
    && (s.closing || (Prompt(s) && !Completed(s)))
    && (s.response.writeShutdown ==> s.closing)
  }

  lemma SettledIsValid(s: Session)
    requires Settled(s)
    ensures BuffersValid(s) && s.clientFd != s.upstreamFd
  {
  }

  ghost predicate SameShape(s: Session, r: Session) {
    && r.clientFd == s.clientFd && r.upstreamFd == s.upstreamFd
    && r.createdAt == s.createdAt
    && r.request.buffer.capacity == s.request.buffer.capacity
    && r.response.buffer.capacity == s.response.buffer.capacity
  }

  // What one more call does to the past.

  lemma AfterConnect(t: seq<Call>, call: Call)
    requires Legal(t) && Settles(call) && Allowed(t, call)
    ensures Legal(t + [call])
    ensures forall side: Side :: PastOf(t + [call], side) == PastOf(t, side)
  {
    LegalSnoc(t, call);
    Snoc(t, call, Client);
    Snoc(t, call, Upstream);
  }

  lemma AfterRecv(t: seq<Call>, from: Side, bytes: seq<byte>)
    requires Legal(t) && Allowed(t, Recv(from, bytes))
    ensures Legal(t + [Recv(from, bytes)])
    ensures PastOf(t + [Recv(from, bytes)], from) == PastOf(t, from).(received := PastOf(t, from).received + bytes)
    ensures PastOf(t + [Recv(from, bytes)], from.Other()) == PastOf(t, from.Other())
  {
    LegalSnoc(t, Recv(from, bytes));
    Snoc(t, Recv(from, bytes), Client);
    Snoc(t, Recv(from, bytes), Upstream);
  }

  lemma AfterEnd(t: seq<Call>, call: Call, from: Side)
    requires Legal(t) && Allowed(t, call) && (call == Eof(from) || call == HungUp(from))
    ensures Legal(t + [call])
    ensures PastOf(t + [call], from) == PastOf(t, from).(ended := true)
    ensures PastOf(t + [call], from.Other()) == PastOf(t, from.Other())
  {
    LegalSnoc(t, call);
    Snoc(t, call, Client);
    Snoc(t, call, Upstream);
  }

  lemma AfterSend(t: seq<Call>, to: Side, bytes: seq<byte>)
    requires Legal(t) && Allowed(t, Send(to, bytes))
    ensures Legal(t + [Send(to, bytes)])
    ensures PastOf(t + [Send(to, bytes)], to.Other())
              == PastOf(t, to.Other()).(sent := PastOf(t, to.Other()).sent + bytes)
    ensures PastOf(t + [Send(to, bytes)], to) == PastOf(t, to)
  {
    LegalSnoc(t, Send(to, bytes));
    Snoc(t, Send(to, bytes), Client);
    Snoc(t, Send(to, bytes), Upstream);
  }

  lemma AfterShutdown(t: seq<Call>, to: Side)
    requires Legal(t) && Allowed(t, Shutdown(to))
    ensures Legal(t + [Shutdown(to)])
    ensures PastOf(t + [Shutdown(to)], to.Other()) == PastOf(t, to.Other()).(shut := true)
    ensures PastOf(t + [Shutdown(to)], to) == PastOf(t, to)
  {
    LegalSnoc(t, Shutdown(to));
    Snoc(t, Shutdown(to), Client);
    Snoc(t, Shutdown(to), Upstream);
  }

  // What one more call does to a sound session.

  lemma ReceivedIsSound(s: Session, from: Side, bytes: seq<byte>, now: nat)
    requires Sound(s) && !s.From(from).readClosed && (from.Upstream? ==> !s.connecting)
    requires bytes != [] && |bytes| <= s.From(from).buffer.Writable()
    ensures Sound(s.WithPipe(from, s.PipeFrom(from).Received(from, bytes, now)))
  {
    var past, data := PastOf(s.trace, from), s.From(from).buffer.data;
    assert past.sent + data + bytes == past.sent + (data + bytes);
    AfterRecv(s.trace, from, bytes);
  }

  lemma EndedIsSound(s: Session, call: Call, from: Side)
    requires Sound(s) && !s.From(from).readClosed && (from.Upstream? ==> !s.connecting)
    requires call == Eof(from) || call == HungUp(from)
    ensures Sound(CloseRead(s.Log(call), from))
  {
    AfterEnd(s.trace, call, from);
  }

  lemma DeliveredIsSound(s: Session, to: Side, count: nat, now: nat)
    requires Sound(s) && (to.Upstream? ==> !s.connecting)
    requires 0 < count <= |s.From(to.Other()).buffer.data|
    ensures Sound(s.WithPipe(to.Other(), s.PipeFrom(to.Other()).Delivered(to, count, now)))
  {
    var past, data := PastOf(s.trace, to.Other()), s.From(to.Other()).buffer.data;
    assert past.sent + data == past.sent + data[..count] + data[count..];
    AfterSend(s.trace, to, data[..count]);
  }

  lemma ShutIsSound(s: Session, from: Side)
    requires Sound(s) && (from.Client? ==> !s.connecting)
    requires s.From(from).readClosed && s.From(from).buffer.data == [] && !s.From(from).writeShutdown
    ensures Sound(s.WithFrom(from, s.From(from).(writeShutdown := true)).Log(Shutdown(from.Other())))
  {
    AfterShutdown(s.trace, from.Other());
  }

  lemma CompactingIsSound(s: Session, from: Side)
    requires Sound(s)
    ensures Sound(s.WithPipe(from, s.PipeFrom(from).(buffer := s.From(from).buffer.Compacted())))
  {
    CompactedIsTight(s.From(from).buffer);
  }

  ghost predicate SoundRead(s: Session, r: (Pipe, IoResult), from: Side) {
    var read := s.WithPipe(from, r.0);
    if r.1.Closed? then Sound(CloseRead(read, from)) else Sound(read)
  }

  /** Only the last state of the pipe counts. */
  lemma SoundThrough(s: Session, from: Side, p: Pipe, r: (Pipe, IoResult))
    requires SoundRead(s.WithPipe(from, p), r, from)
    ensures SoundRead(s, r, from)
  {
    hide Sound;
    assert s.WithPipe(from, p).WithPipe(from, r.0) == s.WithPipe(from, r.0);
  }

  lemma PipeBack(s: Session, from: Side, p: Pipe)
    ensures s.WithPipe(from, p).PipeFrom(from) == p
    ensures s.WithPipe(from, p).From(from).readClosed == s.From(from).readClosed
    ensures s.WithPipe(from, p).connecting == s.connecting
  {
  }

  lemma ReadStops(s: Session, from: Side, p: Pipe, result: IoResult)
    requires Sound(s.WithPipe(from, p)) && !s.From(from).readClosed && (from.Upstream? ==> !s.connecting)
    ensures !result.Closed? ==> SoundRead(s, (p, result), from)
    ensures SoundRead(s, (p.(trace := p.trace + [Eof(from)]), Closed), from)
  {
    hide Legal, PastOf;
    EndedIsSound(s.WithPipe(from, p), Eof(from), from);
  }

  lemma {:induction false} ReadIntoIsSound(s: Session, from: Side, answers: seq<RecvAnswer>, now: nat, progressed: bool)
    requires Sound(s) && !s.From(from).readClosed && (from.Upstream? ==> !s.connecting)
    ensures SoundRead(s, ReadInto(s.PipeFrom(from), from, answers, now, progressed), from)
    decreases |answers|
  {
    CompactingIsSound(s, from);
    CompactedIsTight(s.From(from).buffer);
    var p := s.PipeFrom(from).(buffer := s.From(from).buffer.Compacted());
    var ready := s.WithPipe(from, p);
    PipeBack(s, from, p);
    hide Sound, SoundRead;
    ReadStops(s, from, p, if progressed then Progress else WouldBlock);
    if p.buffer.Writable() != 0 && answers != [] {
      match answers[0]
      case Got(bytes) =>
        var count := Min(|bytes|, p.buffer.Writable());
        if count != 0 {
          var q := p.Received(from, bytes[..count], now);
          PipeBack(ready, from, q);
          ReceivedIsSound(ready, from, bytes[..count], now);
          ReadIntoIsSound(ready.WithPipe(from, q), from, answers[1..], now, true);
          SoundThrough(ready, from, q, ReadInto(q, from, answers[1..], now, true));
          SoundThrough(s, from, p, ReadInto(q, from, answers[1..], now, true));
        }
      case RecvError(Interrupted) =>
        ReadIntoIsSound(ready, from, answers[1..], now, progressed);
        SoundThrough(s, from, p, ReadInto(p, from, answers[1..], now, progressed));
      case RecvError(_) =>
        ReadStops(s, from, p, Error);
    }
  }

  lemma {:induction false} WriteFromIsSound(s: Session, to: Side, answers: seq<SendAnswer>, now: nat, progressed: bool)
    requires Sound(s) && (to.Upstream? ==> !s.connecting)
    ensures Sound(s.WithPipe(to.Other(), WriteFrom(s.PipeFrom(to.Other()), to, answers, now, progressed).0))
    decreases |answers|
  {
    hide Legal, PastOf;
    var data := s.From(to.Other()).buffer.data;
    if data != [] && answers != [] {
      match answers[0]
      case Took(offered) =>
        var count := Min(offered, |data|);
        if count != 0 {
          DeliveredIsSound(s, to, count, now);
          var next := s.WithPipe(to.Other(), s.PipeFrom(to.Other()).Delivered(to, count, now));
          WriteFromIsSound(next, to, answers[1..], now, true);
        }
      case SendError(Interrupted) => WriteFromIsSound(s, to, answers[1..], now, progressed);
      case SendError(_) =>
    }
  }

  lemma {:induction false} ReadIntoSettlesNothing(p: Pipe, from: Side, answers: seq<RecvAnswer>, now: nat,
                                                  progressed: bool)
    requires p.buffer.Valid()
    ensures ConnectFailed in ReadInto(p, from, answers, now, progressed).0.trace <==> ConnectFailed in p.trace
    decreases |answers|
  {
    CompactedIsTight(p.buffer);
    var ready := p.(buffer := p.buffer.Compacted());
    if ready.buffer.Writable() != 0 && answers != [] {
      match answers[0]
      case Got(bytes) =>
        var count := Min(|bytes|, ready.buffer.Writable());
        if count != 0 {
          ReadIntoSettlesNothing(ready.Received(from, bytes[..count], now), from, answers[1..], now, true);
        }
      case RecvError(Interrupted) => ReadIntoSettlesNothing(ready, from, answers[1..], now, progressed);
      case RecvError(_) =>
    }
  }

  lemma {:induction false} WriteFromSettlesNothing(p: Pipe, to: Side, answers: seq<SendAnswer>, now: nat,
                                                   progressed: bool)
    requires p.buffer.Valid()
    ensures ConnectFailed in WriteFrom(p, to, answers, now, progressed).0.trace <==> ConnectFailed in p.trace
    decreases |answers|
  {
    if p.buffer.data != [] && answers != [] {
      match answers[0]
      case Took(offered) =>
        var count := Min(offered, |p.buffer.data|);
        if count != 0 {
          WriteFromSettlesNothing(p.Delivered(to, count, now), to, answers[1..], now, true);
        }
      case SendError(Interrupted) => WriteFromSettlesNothing(p, to, answers[1..], now, progressed);
      case SendError(_) =>
    }
  }

  /** What the two halves of an event leave alone. */
  ghost predicate KeepsRest(s: Session, r: Session) {
    && SameShape(s, r)
    && r.connecting == s.connecting
    && r.response.writeShutdown == s.response.writeShutdown
    && (ConnectFailed in r.trace <==> ConnectFailed in s.trace)
  }

  lemma PipeKeepsRest(s: Session, from: Side, p: Pipe)
    requires p.buffer.capacity == s.From(from).buffer.capacity
    requires (ConnectFailed in p.trace <==> ConnectFailed in s.trace)
    ensures KeepsRest(s, s.WithPipe(from, p)) && KeepsRest(s, CloseRead(s.WithPipe(from, p), from))
    ensures KeepsRest(s, CloseRead(s.WithPipe(from, p).Log(HungUp(from)), from))
  {
  }

  lemma PullKeepsRest(s: Session, from: Side, events: Events, answers: Answers)
    requires BuffersValid(s)
    ensures KeepsRest(s, Pull(s, from, events, answers))
  {
    ReadIntoSettlesNothing(s.PipeFrom(from), from, answers.recvs, answers.now, false);
    PipeKeepsRest(s, from, ReadInto(s.PipeFrom(from), from, answers.recvs, answers.now, false).0);
    hide ReadInto, CloseRead;
  }

  lemma PullIsSound(s: Session, from: Side, events: Events, answers: Answers)
    requires Sound(s) && (from.Upstream? ==> !s.connecting)
    ensures Sound(Pull(s, from, events, answers)) && KeepsRest(s, Pull(s, from, events, answers))
  {
    PullKeepsRest(s, from, events, answers);
    hide ReadInto, Legal, PastOf, KeepsRest;
    if !s.From(from).readClosed && (events.input || events.PeerHangup()) {
      ReadIntoIsSound(s, from, answers.recvs, answers.now, false);
      var (pipe, result) := ReadInto(s.PipeFrom(from), from, answers.recvs, answers.now, false);
      if result.WouldBlock? && events.PeerHangup() {
        EndedIsSound(s.WithPipe(from, pipe), HungUp(from), from);
      }
    }
  }

  lemma PushIsSound(s: Session, to: Side, events: Events, answers: Answers)
    requires Sound(s) && (to.Upstream? ==> !s.connecting)
    ensures Sound(Push(s, to, events, answers)) && KeepsRest(s, Push(s, to, events, answers))
  {
    hide WriteFrom, Legal, PastOf;
    if !s.closing && events.output && s.From(to.Other()).buffer.data != [] {
      WriteFromIsSound(s, to, answers.sends, answers.now, false);
      WriteFromSettlesNothing(s.PipeFrom(to.Other()), to, answers.sends, answers.now, false);
    }
  }

  lemma SettleSettles(s: Session)
    requires Sound(s) && (s.closing || ConnectFailed !in s.trace)
    requires s.response.writeShutdown ==> s.closing
    ensures Settled(Settle(s)) && SameShape(s, Settle(s)) && Settle(s).connecting == s.connecting
    ensures ConnectFailed in Settle(s).trace <==> ConnectFailed in s.trace
  {
    if !s.closing {
      var s1 := s;
      if s.request.readClosed && s.request.buffer.data == [] && !s.request.writeShutdown && !s.connecting {
        ShutIsSound(s, Client);
        s1 := s.(request := s.request.(writeShutdown := true)).Log(Shutdown(Upstream));
      }
      if s1.response.readClosed && s1.response.buffer.data == [] && !s1.response.writeShutdown {
        ShutIsSound(s1, Upstream);
      }
    }
  }

  lemma AdmitIsSound(s: Session, fd: int, events: Events, answers: Answers)
    requires Sound(s) && !s.closing
    ensures
      var r := Admit(s, fd, events, answers);
      && Sound(r) && SameShape(s, r)
      && r.response.writeShutdown == s.response.writeShutdown
      && (!r.closing ==> fd == s.upstreamFd ==> !r.connecting)
      && (!r.closing ==> ConnectFailed !in r.trace)
      && BytesIn(r.trace, Client) == BytesIn(s.trace, Client)
      && BytesIn(r.trace, Upstream) == BytesIn(s.trace, Upstream)
  {
    if fd == s.upstreamFd && s.connecting {
      AfterConnect(s.trace, if answers.connectOk then ConnectOk else ConnectFailed);
      assert PastOf(Admit(s, fd, events, answers).trace, Client) == PastOf(s.trace, Client);
      assert PastOf(Admit(s, fd, events, answers).trace, Upstream) == PastOf(s.trace, Upstream);
    }
  }

  lemma ServeSettles(s: Session, side: Side, events: Events, answers: Answers)
    requires Sound(s) && !s.closing && !s.response.writeShutdown && (side.Upstream? ==> !s.connecting)
    ensures
      var r := Serve(s, side, events, answers);
      && Settled(r) && SameShape(s, r)
      && ConnectFailed !in r.trace
      && r.connecting == s.connecting
  {
    hide Pull, Push, BytesIn, BytesOut, Legal, Settle;
    PullIsSound(s, side, events, answers);
    var m := Pull(s, side, events, answers);
    PushIsSound(m, side, events, answers);
    SettleSettles(Push(m, side, events, answers));
  }

  lemma HandleSettles(s: Session, fd: int, events: Events, answers: Answers)
    requires Settled(s)
    ensures Settled(Handle(s, fd, events, answers)) && SameShape(s, Handle(s, fd, events, answers))
  {
    hide Serve, BytesIn, BytesOut, Legal;
    if !s.closing && !Waits(s, fd, events) {
      AdmitIsSound(s, fd, events, answers);
      var s1 := Admit(s, fd, events, answers);
      if !s1.closing {
        ServeSettles(s1, if fd == s.clientFd then Client else Upstream, events, answers);
      }
    }
  }

  lemma StartSettles(clientFd: int, upstreamFd: int, connecting: bool, capacity: nat, now: nat)
    requires clientFd != upstreamFd
    ensures Settled(Start(clientFd, upstreamFd, connecting, capacity, now))
  {
    if !connecting {
      AfterConnect([], ConnectOk);
      assert [] + [ConnectOk] == [ConnectOk];
    }
  }

  lemma {:induction false} RunSettles(s: Session, inputs: seq<Input>)
    requires Settled(s)
    ensures Settled(Run(s, inputs)) && SameShape(s, Run(s, inputs))
  {
    if inputs != [] {
      var last := inputs[|inputs| - 1];
      RunSettles(s, inputs[..|inputs| - 1]);
      HandleSettles(Run(s, inputs[..|inputs| - 1]), last.fd, last.events, last.answers);
    }
  }

  // Whatever the kernel answers, the trace gains what the buffer gains or loses.

  /** Whatever the kernel answers, the bytes readInto logs are the bytes it appends. */
  lemma {:induction false} ReadIntoLogs(p: Pipe, from: Side, answers: seq<RecvAnswer>, now: nat, progressed: bool,
                                        sent: seq<byte>)
    requires p.buffer.Valid() && BytesIn(p.trace, from) == sent + p.buffer.data
    ensures
      var r := ReadInto(p, from, answers, now, progressed).0;
      BytesIn(r.trace, from) == sent + r.buffer.data
    decreases |answers|
  {
    hide BytesIn;
    CompactedIsTight(p.buffer);
    var ready := p.(buffer := p.buffer.Compacted());
    if ready.buffer.Writable() != 0 && answers != [] {
      match answers[0]
      case Got(bytes) =>
        var count := Min(|bytes|, ready.buffer.Writable());
        if count == 0 {
          Snoc(p.trace, Eof(from), from);
        } else {
          Snoc(p.trace, Recv(from, bytes[..count]), from);
          assert sent + p.buffer.data + bytes[..count] == sent + (p.buffer.data + bytes[..count]);
          ReadIntoLogs(ready.Received(from, bytes[..count], now), from, answers[1..], now, true, sent);
        }
      case RecvError(Interrupted) => ReadIntoLogs(ready, from, answers[1..], now, progressed, sent);
      case RecvError(_) =>
    }
  }

  /** Whatever the kernel answers, the bytes writeFrom logs are the bytes it takes off the front. */
  lemma {:induction false} WriteFromLogs(p: Pipe, to: Side, answers: seq<SendAnswer>, now: nat, progressed: bool)
    requires p.buffer.Valid()
    ensures
      var r := WriteFrom(p, to, answers, now, progressed).0;
      BytesOut(r.trace, to) + r.buffer.data == BytesOut(p.trace, to) + p.buffer.data
    decreases |answers|
  {
    hide BytesOut;
    var data := p.buffer.data;
    if data != [] && answers != [] {
      match answers[0]
      case Took(offered) =>
        var count := Min(offered, |data|);
        if count != 0 {
          Snoc(p.trace, Send(to, data[..count]), to);
          WriteFromLogs(p.Delivered(to, count, now), to, answers[1..], now, true);
          assert BytesOut(p.trace, to) + data == BytesOut(p.trace, to) + data[..count] + data[count..];
        }
      case SendError(Interrupted) => WriteFromLogs(p, to, answers[1..], now, progressed);
      case SendError(_) =>
    }
  }

  lemma {:induction false} ReadIntoSendsNothing(p: Pipe, from: Side, answers: seq<RecvAnswer>, now: nat,
                                                progressed: bool, to: Side)
    requires p.buffer.Valid()
    ensures BytesOut(ReadInto(p, from, answers, now, progressed).0.trace, to) == BytesOut(p.trace, to)
    decreases |answers|
  {
    CompactedIsTight(p.buffer);
    var ready := p.(buffer := p.buffer.Compacted());
    if ready.buffer.Writable() != 0 && answers != [] {
      match answers[0]
      case Got(bytes) =>
        var count := Min(|bytes|, ready.buffer.Writable());
        if count == 0 {
          Snoc(p.trace, Eof(from), to);
        } else {
          Snoc(p.trace, Recv(from, bytes[..count]), to);
          ReadIntoSendsNothing(ready.Received(from, bytes[..count], now), from, answers[1..], now, true, to);
        }
      case RecvError(Interrupted) => ReadIntoSendsNothing(ready, from, answers[1..], now, progressed, to);
      case RecvError(_) =>
    }
  }

  lemma {:induction false} WriteFromReceivesNothing(p: Pipe, to: Side, answers: seq<SendAnswer>, now: nat,
                                                    progressed: bool, from: Side)
    requires p.buffer.Valid()
    ensures BytesIn(WriteFrom(p, to, answers, now, progressed).0.trace, from) == BytesIn(p.trace, from)
    decreases |answers|
  {
    var data := p.buffer.data;
    if data != [] && answers != [] {
      match answers[0]
      case Took(offered) =>
        var count := Min(offered, |data|);
        if count != 0 {
          Snoc(p.trace, Send(to, data[..count]), from);
          WriteFromReceivesNothing(p.Delivered(to, count, now), to, answers[1..], now, true, from);
        }
      case SendError(Interrupted) => WriteFromReceivesNothing(p, to, answers[1..], now, progressed, from);
      case SendError(_) =>
    }
  }

  /** Pulling grows a buffer by as much as the bytes received. */
  lemma PullGains(s: Session, from: Side, events: Events, answers: Answers, side: Side)
    requires Sound(s) && (from.Upstream? ==> !s.connecting)
    ensures
      var r := Pull(s, from, events, answers);
      |BytesIn(r.trace, side)| + |s.From(side).buffer.data| == |BytesIn(s.trace, side)| + |r.From(side).buffer.data|
  {
    hide ReadInto, Legal, BytesIn, BytesOut, Open;
    PullIsSound(s, from, events, answers);
    if !s.From(from).readClosed && (events.input || events.PeerHangup()) {
      var (pipe, result) := ReadInto(s.PipeFrom(from), from, answers.recvs, answers.now, false);
      ReadIntoSendsNothing(s.PipeFrom(from), from, answers.recvs, answers.now, false, side.Other());
      Snoc(pipe.trace, HungUp(from), side.Other());
    }
    var r := Pull(s, from, events, answers);
    assert BytesOut(r.trace, side.Other()) == BytesOut(s.trace, side.Other());
    assert Agrees(s.From(side), PastOf(s.trace, side)) && Agrees(r.From(side), PastOf(r.trace, side));
  }

  lemma SettleGainsNothing(s: Session, side: Side)
    ensures BytesIn(Settle(s).trace, side) == BytesIn(s.trace, side)
  {
    hide BytesIn;
    Snoc(s.trace, Shutdown(Upstream), side);
    Snoc(s.trace, Shutdown(Client), side);
    Snoc(s.trace + [Shutdown(Upstream)], Shutdown(Client), side);
  }

  /** Pushing and settling receive nothing. */
  lemma PushGainsNothing(s: Session, to: Side, events: Events, answers: Answers, side: Side)
    requires BuffersValid(s)
    ensures BytesIn(Settle(Push(s, to, events, answers)).trace, side) == BytesIn(s.trace, side)
  {
    hide WriteFrom, BytesIn, Settle;
    if !s.closing && events.output && s.From(to.Other()).buffer.data != [] {
      WriteFromReceivesNothing(s.PipeFrom(to.Other()), to, answers.sends, answers.now, false, side);
    }
    SettleGainsNothing(Push(s, to, events, answers), side);
  }

  lemma ServeGains(s: Session, side: Side, events: Events, answers: Answers)
    requires Sound(s) && (side.Upstream? ==> !s.connecting)
    ensures
      var m := Pull(s, side, events, answers);
      var r := Serve(s, side, events, answers);
      && |BytesIn(r.trace, Client)| + |s.request.buffer.data| == |BytesIn(s.trace, Client)| + |m.request.buffer.data|
      && |BytesIn(r.trace, Upstream)| + |s.response.buffer.data|
           == |BytesIn(s.trace, Upstream)| + |m.response.buffer.data|
  {
    hide Pull, Push, Settle, BytesIn;
    PullGains(s, side, events, answers, Client);
    PullGains(s, side, events, answers, Upstream);
    PushGainsNothing(Pull(s, side, events, answers), side, events, answers, Client);
    PushGainsNothing(Pull(s, side, events, answers), side, events, answers, Upstream);
  }
}
