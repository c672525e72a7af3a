/** The session object: its methods compute what the functions of Sessions say. */
module ProxySessions {
  import opened Backends
  import opened ByteBuffers
  import opened MetricsCounters
  import opened SessionRuns
  import opened SessionFates
  import opened Sessions
  import opened Traces

  class ProxySession {
    const clientFd: int
    const upstreamFd: int
    const backend: Backend
    const clientToUpstream: ByteBuffer
    const upstreamToClient: ByteBuffer
    const createdAt: nat
    var upstreamConnecting: bool
    var clientReadClosed: bool
    var upstreamReadClosed: bool
    var clientWriteShutdown: bool
    var upstreamWriteShutdown: bool
    var closing: bool
    var lastActivity: nat
    ghost var trace: seq<Call>

    ghost const Repr: set<object> :=
      {this, clientToUpstream, clientToUpstream.storage, upstreamToClient, upstreamToClient.storage}

    ghost predicate Valid()
      reads this, clientToUpstream, upstreamToClient
    {
      && clientToUpstream != upstreamToClient
      && clientToUpstream.storage != upstreamToClient.storage
      && clientToUpstream.Valid()
      && upstreamToClient.Valid()
    }

    ghost function State(): (s: Session)
      requires Valid()
      reads Repr
      ensures BuffersValid(s)
    {
      Session(clientFd, upstreamFd, upstreamConnecting,
              Flow(clientToUpstream.View(), clientReadClosed, upstreamWriteShutdown),
              Flow(upstreamToClient.View(), upstreamReadClosed, clientWriteShutdown),
              closing, createdAt, lastActivity, trace)
    }

    constructor (clientFd: int, upstreamFd: int, connecting: bool, backend: Backend, capacity: nat, now: nat)
      requires clientFd != upstreamFd
      modifies backend`totalConnections
      ensures Valid() && fresh(Repr) && this.backend == backend
      ensures State() == Start(clientFd, upstreamFd, connecting, capacity, now) && Settled(State())
      ensures backend.totalConnections == old(backend.totalConnections) + if connecting then 0 else 1
    {
      this.clientFd, this.upstreamFd, this.backend := clientFd, upstreamFd, backend;
      upstreamConnecting := connecting;
      clientToUpstream := new ByteBuffer(capacity);
      upstreamToClient := new ByteBuffer(capacity);
      clientReadClosed, upstreamReadClosed := false, false;
      clientWriteShutdown, upstreamWriteShutdown := false, false;
      closing := false;
      createdAt, lastActivity := now, now;
      trace := [];
      new;
      if !upstreamConnecting {
        backend.RecordConnectSuccess();
        trace := [ConnectOk];
      }
      StartSettles(clientFd, upstreamFd, connecting, capacity, now);
    }

    function ClientEvents(): (e: Events)
      requires Valid()
      reads Repr
      ensures e == Sessions.ClientEvents(State())
    {
      Events(!clientReadClosed && clientToUpstream.WritableBytes() > 0, !upstreamToClient.Empty(), false, false, true)
    }

    function UpstreamEvents(): (e: Events)
      requires Valid()
      reads Repr
      ensures e == Sessions.UpstreamEvents(State())
    {
      if upstreamConnecting then Events(false, true, false, false, true)
      else Events(!upstreamReadClosed && upstreamToClient.WritableBytes() > 0, !clientToUpstream.Empty(), false,
                  false, true)
    }

    /** What readInto and writeFrom work on. */
    ghost function PipeOn(buffer: ByteBuffer): Pipe
      requires buffer.Valid()
      reads this, buffer, buffer.storage
    {
      Pipe(buffer.View(), trace, lastActivity)
    }

    method ReadInto(buffer: ByteBuffer, from: Side, answers: seq<RecvAnswer>, now: nat, metrics: Metrics)
      returns (result: IoResult)
      requires buffer.Valid()
      modifies this`trace, this`lastActivity, buffer, buffer.storage
      modifies metrics`clientToBackendBytes, metrics`backendToClientBytes
      ensures buffer.Valid()
      ensures (PipeOn(buffer), result) == Sessions.ReadInto(old(PipeOn(buffer)), from, answers, now, false)
      ensures metrics.clientToBackendBytes + (if from.Client? then |old(buffer.View()).data| else 0)
           == old(metrics.clientToBackendBytes) + (if from.Client? then |buffer.View().data| else 0)
      ensures metrics.backendToClientBytes + (if from.Upstream? then |old(buffer.View()).data| else 0)
           == old(metrics.backendToClientBytes) + (if from.Upstream? then |buffer.View().data| else 0)
    {
      hide Sessions.ReadInto;
      var progressed := false;
      var next := 0;
      ghost var start := PipeOn(buffer);
      assert answers[0..] == answers;
      while true
        invariant buffer.Valid() && next <= |answers|
        invariant Sessions.ReadInto(PipeOn(buffer), from, answers[next..], now, progressed)
               == Sessions.ReadInto(start, from, answers, now, false)
        invariant metrics.clientToBackendBytes + (if from.Client? then |start.buffer.data| else 0)
               == old(metrics.clientToBackendBytes) + (if from.Client? then |buffer.View().data| else 0)
        invariant metrics.backendToClientBytes + (if from.Upstream? then |start.buffer.data| else 0)
               == old(metrics.backendToClientBytes) + (if from.Upstream? then |buffer.View().data| else 0)
        decreases buffer.storage.Length - |buffer.View().data|, |answers| - next
      {
        CompactedIsTight(buffer.View());
        ReadIntoTurn(PipeOn(buffer), from, answers, next, now, progressed);
        buffer.MakeWritable();
        if buffer.WritableBytes() == 0 || next == |answers| {
          return if progressed then Progress else WouldBlock;
        }
        match answers[next] {
          case Got(bytes) =>
            var count := Min(|bytes|, buffer.WritableBytes());
            if count == 0 {
              trace := trace + [Eof(from)];
              return Closed;
            }
            buffer.Receive(bytes[..count]);
            if from.Client? {
              metrics.AddClientToBackend(count);
            } else {
              metrics.AddBackendToClient(count);
            }
            trace := trace + [Recv(from, bytes[..count])];
            progressed := true;
            lastActivity := now;
          case RecvError(Interrupted) =>
          case RecvError(Again) =>
            return if progressed then Progress else WouldBlock;
          case RecvError(Fatal) =>
            return Error;
        }
        next := next + 1;
      }
    }

    method WriteFrom(buffer: ByteBuffer, to: Side, answers: seq<SendAnswer>, now: nat) returns (result: IoResult)
      requires buffer.Valid()
      modifies this`trace, this`lastActivity, buffer
      ensures buffer.Valid()
      ensures (PipeOn(buffer), result) == Sessions.WriteFrom(old(PipeOn(buffer)), to, answers, now, false)
    {
      var progressed := false;
      var next := 0;
      ghost var start := PipeOn(buffer);
      while !buffer.Empty()
        invariant buffer.Valid() && next <= |answers|
        invariant Sessions.WriteFrom(PipeOn(buffer), to, answers[next..], now, progressed)
               == Sessions.WriteFrom(start, to, answers, now, false)
        decreases |buffer.View().data|, |answers| - next
      {
        if next == |answers| {
          return if progressed then Progress else WouldBlock;
        }
        assert answers[next..][0] == answers[next] && answers[next..][1..] == answers[next + 1..];
        match answers[next] {
          case Took(offered) =>
            var count := Min(offered, buffer.ReadableBytes());
            if count == 0 {
              return Closed;
            }
            var bytes := buffer.Peek(count);
            buffer.Consume(count);
            trace := trace + [Send(to, bytes)];
            progressed := true;
            lastActivity := now;
          case SendError(Interrupted) =>
          case SendError(Again) =>
            return if progressed then Progress else WouldBlock;
          case SendError(Fatal) =>
            return Error;
        }
        next := next + 1;
      }
      return Progress;
    }

    /** readInto on the buffer that `from` fills. */
    method ReadSide(from: Side, answers: seq<RecvAnswer>, now: nat, metrics: Metrics) returns (result: IoResult)
      requires Valid()
      modifies Repr, metrics`clientToBackendBytes, metrics`backendToClientBytes
      ensures Valid()
      ensures
        var r := Sessions.ReadInto(old(State()).PipeFrom(from), from, answers, now, false);
        State() == old(State()).WithPipe(from, r.0) && result == r.1
      ensures metrics.clientToBackendBytes + |old(State()).request.buffer.data|
                == old(metrics.clientToBackendBytes) + |State().request.buffer.data|
      ensures metrics.backendToClientBytes + |old(State()).response.buffer.data|
                == old(metrics.backendToClientBytes) + |State().response.buffer.data|
    {
      hide Sessions.ReadInto;
      match from
      case Client => result := ReadInto(clientToUpstream, Client, answers, now, metrics);
      case Upstream => result := ReadInto(upstreamToClient, Upstream, answers, now, metrics);
    }

    /** The read half of an event on `from`. */
    method PullFrom(from: Side, events: Events, answers: Answers, metrics: Metrics)
      requires Valid()
      modifies Repr, metrics`clientToBackendBytes, metrics`backendToClientBytes
      ensures Valid()
      ensures State() == Pull(old(State()), from, events, answers)
      ensures metrics.clientToBackendBytes + |old(State()).request.buffer.data|
                == old(metrics.clientToBackendBytes) + |State().request.buffer.data|
      ensures metrics.backendToClientBytes + |old(State()).response.buffer.data|
                == old(metrics.backendToClientBytes) + |State().response.buffer.data|
    {
      hide Sessions.ReadInto;
      var readClosed := if from.Client? then clientReadClosed else upstreamReadClosed;
      if !readClosed && (events.input || events.PeerHangup()) {
        var result := ReadSide(from, answers.recvs, answers.now, metrics);
        if result.Error? {
          closing := true;
        } else if result.Closed? || (events.PeerHangup() && result.WouldBlock?) {
          CloseReadSide(from, result);
        }
      }
    }

    method CloseReadSide(from: Side, result: IoResult)
      requires Valid()
      modifies this
      ensures Valid()
      ensures State() == CloseRead(if result.WouldBlock? then old(State()).Log(HungUp(from)) else old(State()), from)
    {
      if result.WouldBlock? {
        trace := trace + [HungUp(from)];
      }
      if from.Client? {
        clientReadClosed := true;
      } else {
        upstreamReadClosed := true;
      }
    }

    /** The write half of an event on `to`. */
    method PushTo(to: Side, events: Events, answers: Answers)
      requires Valid() && !closing
      modifies Repr
      ensures Valid()
      ensures State() == Push(old(State()), to, events, answers)
    {
      var buffer := if to.Client? then upstreamToClient else clientToUpstream;
      if events.output && !buffer.Empty() {
        ghost var before := State();
        var result := WriteFrom(buffer, to, answers.sends, answers.now);
        assert State() == before.WithPipe(to.Other(), PipeOn(buffer));
        if result.Error? || result.Closed? {
          closing := true;
        }
      }
    }

    method UpdateHalfClose()
      requires Valid()
      modifies this
      ensures Valid()
      ensures State() == HalfClose(old(State()))
    {
      if clientReadClosed && clientToUpstream.Empty() && !upstreamWriteShutdown && !upstreamConnecting {
        trace := trace + [Shutdown(Upstream)];
        upstreamWriteShutdown := true;
      }
      if upstreamReadClosed && upstreamToClient.Empty() && !clientWriteShutdown {
        trace := trace + [Shutdown(Client)];
        clientWriteShutdown := true;
      }
    }

    method FinishUpstreamConnect(answers: Answers, metrics: Metrics) returns (connected: bool)
      requires Valid() && upstreamConnecting
      modifies this, metrics`connectFailures, backend`totalConnections, backend`failedConnections
      ensures Valid()
      ensures State() == FinishConnect(old(State()), answers).(closing := old(closing))
      ensures connected == answers.connectOk
      ensures metrics.connectFailures == old(metrics.connectFailures) + if connected then 0 else 1
      ensures backend.failedConnections == old(backend.failedConnections) + if connected then 0 else 1
      ensures backend.totalConnections == old(backend.totalConnections) + if connected then 1 else 0
    {
      if !answers.connectOk {
        backend.RecordConnectFailure();
        metrics.OnConnectFailure();
        trace := trace + [ConnectFailed];
        return false;
      }
      upstreamConnecting := false;
      backend.RecordConnectSuccess();
      trace := trace + [ConnectOk];
      lastActivity := answers.now;
      return true;
    }

    /** What an event does before any byte moves. */
    method Admit(fd: int, events: Events, answers: Answers, metrics: Metrics)
      requires Valid() && !closing
      modifies this, metrics`connectFailures, backend`totalConnections, backend`failedConnections
      ensures Valid()
      ensures State() == Sessions.Admit(old(State()), fd, events, answers)
      ensures
        var settles := fd == upstreamFd && old(upstreamConnecting);
        && metrics.connectFailures == old(metrics.connectFailures) + (if settles && !answers.connectOk then 1 else 0)
        && backend.failedConnections
             == old(backend.failedConnections) + (if settles && !answers.connectOk then 1 else 0)
        && backend.totalConnections == old(backend.totalConnections) + (if settles && answers.connectOk then 1 else 0)
    {
      if fd == upstreamFd && upstreamConnecting {
        var connected := FinishUpstreamConnect(answers, metrics);
        if !connected {
          closing := true;
          return;
        }
      }
      if events.error || !(fd == clientFd || fd == upstreamFd) {
        closing := true;
      }
    }

    method Serve(side: Side, events: Events, answers: Answers, metrics: Metrics)
      requires Valid() && !closing
      modifies Repr, metrics`clientToBackendBytes, metrics`backendToClientBytes
      ensures Valid()
      ensures State() == Sessions.Serve(old(State()), side, events, answers)
      ensures
        var s, m := old(State()), Pull(old(State()), side, events, answers);
        && metrics.clientToBackendBytes + |s.request.buffer.data|
             == old(metrics.clientToBackendBytes) + |m.request.buffer.data|
        && metrics.backendToClientBytes + |s.response.buffer.data|
             == old(metrics.backendToClientBytes) + |m.response.buffer.data|
    {
      hide Pull, HalfClose;
      PullFrom(side, events, answers, metrics);
      if !closing {
        PushTo(side, events, answers);
      }
      if !closing {
        UpdateHalfClose();
        closing := upstreamReadClosed && upstreamToClient.Empty();
      }
    }

    /** An event that is not ignored. */
    method Act(fd: int, events: Events, answers: Answers, metrics: Metrics)
      requires Valid() && !closing
      modifies Repr, metrics, backend`totalConnections, backend`failedConnections
      ensures Valid()
      ensures
        var s, side := old(State()), if fd == clientFd then Client else Upstream;
        var s1 := Sessions.Admit(s, fd, events, answers);
        && State() == (if s1.closing then s1 else Sessions.Serve(s1, side, events, answers))
        && (var m := if s1.closing then s1 else Pull(s1, side, events, answers);
            && metrics.clientToBackendBytes + |s1.request.buffer.data|
                 == old(metrics.clientToBackendBytes) + |m.request.buffer.data|
            && metrics.backendToClientBytes + |s1.response.buffer.data|
                 == old(metrics.backendToClientBytes) + |m.response.buffer.data|)
      ensures
        var settles := fd == upstreamFd && old(upstreamConnecting);
        && metrics.connectFailures == old(metrics.connectFailures) + (if settles && !answers.connectOk then 1 else 0)
        && backend.failedConnections
             == old(backend.failedConnections) + (if settles && !answers.connectOk then 1 else 0)
        && backend.totalConnections == old(backend.totalConnections) + (if settles && answers.connectOk then 1 else 0)
    {
      hide Sessions.Serve, Sessions.Admit, Pull;
      Admit(fd, events, answers, metrics);
      if !closing {
        Serve(if fd == clientFd then Client else Upstream, events, answers, metrics);
      }
    }

    /** One epoll event; `alive` is what the worker acts on. Bytes and connect outcomes are counted
        exactly as the trace records them. */
    method HandleEvent(fd: int, events: Events, answers: Answers, metrics: Metrics) returns (alive: bool)
      requires Valid() && Settled(State())
      modifies Repr, metrics, backend`totalConnections, backend`failedConnections
      ensures Valid() && Settled(State())
      ensures State() == Handle(old(State()), fd, events, answers)
      ensures alive == !closing
      ensures Clocked(old(trace), old(lastActivity), trace, lastActivity, answers.now)
      ensures old(closing) || Ignored(old(State()), fd, events) ==> State() == old(State())
      ensures !old(closing) && !Ignored(old(State()), fd, events) ==>
                (closing <==> Broken(old(State()), fd, events, answers) || Completed(State()))
      ensures metrics.clientToBackendBytes + |BytesIn(old(trace), Client)|
                == old(metrics.clientToBackendBytes) + |BytesIn(trace, Client)|
      ensures metrics.backendToClientBytes + |BytesIn(old(trace), Upstream)|
                == old(metrics.backendToClientBytes) + |BytesIn(trace, Upstream)|
      ensures metrics.connectFailures == old(metrics.connectFailures) + Newly(ConnectFailed, old(trace), trace)
      ensures backend.failedConnections == old(backend.failedConnections) + Newly(ConnectFailed, old(trace), trace)
      ensures backend.totalConnections == old(backend.totalConnections) + Newly(ConnectOk, old(trace), trace)
    {
      hide Sessions.Serve, Sessions.Admit, Pull, Settled, BytesIn, Broken, Clocked;
      ghost var s := State();
      HandleSettles(s, fd, events, answers);
      HandleCounts(s, fd, events, answers);
      EventTouches(s, fd, events, answers);
      if !closing {
        EventEnds(s, fd, events, answers);
      }
      if closing {
        return false;
      }
      if fd == upstreamFd && upstreamConnecting && !(events.output || events.error || events.hangup) {
        return true;
      }
      Act(fd, events, answers, metrics);
      return !closing;
    }
  }

  /** One turn of the read loop, with `next` answers used up. */
  lemma ReadIntoTurn(p: Pipe, from: Side, answers: seq<RecvAnswer>, next: nat, now: nat, progressed: bool)
    requires p.buffer.Valid() && next <= |answers|
    ensures p.buffer.Compacted().Valid()
    ensures
      var r := ReadInto(p, from, answers[next..], now, progressed);
      var ready := p.(buffer := p.buffer.Compacted());
      var pause := if progressed then Progress else WouldBlock;
      if ready.buffer.Writable() == 0 || next == |answers| then r == (ready, pause)
      else
        match answers[next]
        case Got(bytes) =>
          var count := Min(|bytes|, ready.buffer.Writable());
          r == if count == 0 then (ready.(trace := ready.trace + [Eof(from)]), Closed)
               else ReadInto(ready.Received(from, bytes[..count], now), from, answers[next + 1..], now, true)
        case RecvError(Interrupted) => r == ReadInto(ready, from, answers[next + 1..], now, progressed)
        case RecvError(Again) => r == (ready, pause)
        case RecvError(Fatal) => r == (ready, Error)
  {
    CompactedIsTight(p.buffer);
    if next < |answers| {
      assert answers[next..][0] == answers[next] && answers[next..][1..] == answers[next + 1..];
    }
  }

  /** How one event changes what the trace counts, in terms of the buffers and the connect outcome. */
  lemma HandleCounts(s: Session, fd: int, events: Events, answers: Answers)
    requires Settled(s)
    ensures
      var r := Handle(s, fd, events, answers);
      var acts := !s.closing && !Waits(s, fd, events);
      var s1 := Admit(s, fd, events, answers);
      var m := Pull(s1, if fd == s.clientFd then Client else Upstream, events, answers);
      var served := acts && !s1.closing;
      && Newly(ConnectFailed, s.trace, r.trace)
           == (if acts && fd == s.upstreamFd && s.connecting && !answers.connectOk then 1 else 0)
      && Newly(ConnectOk, s.trace, r.trace)
           == (if acts && fd == s.upstreamFd && s.connecting && answers.connectOk then 1 else 0)
      && |BytesIn(r.trace, Client)| + (if served then |s1.request.buffer.data| else 0)
           == |BytesIn(s.trace, Client)| + (if served then |m.request.buffer.data| else 0)
      && |BytesIn(r.trace, Upstream)| + (if served then |s1.response.buffer.data| else 0)
           == |BytesIn(s.trace, Upstream)| + (if served then |m.response.buffer.data| else 0)
  {
    hide Serve, Pull, BytesIn, BytesOut, Legal;
    if !s.closing && !Waits(s, fd, events) {
      AdmitIsSound(s, fd, events, answers);
      var s1 := Admit(s, fd, events, answers);
      if !s1.closing {
        var side := if fd == s.clientFd then Client else Upstream;
        ServeSettles(s1, side, events, answers);
        ServeGains(s1, side, events, answers);
      }
    }
  }
}
