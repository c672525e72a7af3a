/** What one proxied connection does, as functions on values.
    Every answer the kernel may give is an argument, and every call that moves bytes, closes a
    direction or settles the upstream connection is recorded in the session's trace. */
module Sessions {
  import opened ByteBuffers

  datatype Side = Client | Upstream {
    function Other(): Side {
      if Client? then Upstream else Client
    }
  }

  /** The epoll bits: EPOLLIN, EPOLLOUT, EPOLLERR, EPOLLHUP, EPOLLRDHUP. */
  datatype Events = Events(input: bool, output: bool, error: bool, hangup: bool, readHangup: bool) {
    predicate PeerHangup() {
      hangup || readHangup
    }
  }

  datatype Errno = Interrupted | Again | Fatal

  /** recv() fills the buffer with `bytes`, cut to the size asked for (none of them means end of
      stream), or fails. */
  datatype RecvAnswer = Got(bytes: seq<byte>) | RecvError(errno: Errno)

  /** send() takes `count` bytes, cut to the size offered, or fails. */
  datatype SendAnswer = Took(count: nat) | SendError(errno: Errno)

  /** The kernel's side of one event: SO_ERROR, the clock, and the answers to recv() and send() in
      order. A list that runs out keeps answering EAGAIN. */
  datatype Answers = Answers(connectOk: bool, now: nat, recvs: seq<RecvAnswer>, sends: seq<SendAnswer>)

  datatype Call =
    | Recv(from: Side, bytes: seq<byte>)
    | Eof(from: Side)
    | HungUp(from: Side)    // the read side is given up on a hangup flag, without an end of stream
    | Send(to: Side, bytes: seq<byte>)
    | Shutdown(to: Side)
    | ConnectOk
    | ConnectFailed

  datatype IoResult = Progress | WouldBlock | Closed | Error

  /** One direction: its buffer, whether its source is read to the end, whether its destination is
      shut down. */
  datatype Flow = Flow(buffer: Buffer, readClosed: bool, writeShutdown: bool)

  /** The part of a session that readInto and writeFrom work on. */
  datatype Pipe = Pipe(buffer: Buffer, trace: seq<Call>, lastActivity: nat) {
    function Received(from: Side, bytes: seq<byte>, now: nat): Pipe {
      Pipe(buffer.Written(bytes), trace + [Recv(from, bytes)], now)
    }

    function Delivered(to: Side, count: nat, now: nat): Pipe
      requires count <= |buffer.data|
    {
      Pipe(buffer.Consumed(count), trace + [Send(to, buffer.data[..count])], now)
    }
  }

  /** `request` runs from the client to the upstream, `response` back. */
  datatype Session = Session(
    clientFd: int, upstreamFd: int, connecting: bool, request: Flow, response: Flow,
    closing: bool, createdAt: nat, lastActivity: nat, trace: seq<Call>)
  {
    /** The direction whose source is `side`. */
    function From(side: Side): Flow {
      if side.Client? then request else response
    }

    function WithFrom(side: Side, flow: Flow): Session {
      if side.Client? then this.(request := flow) else this.(response := flow)
    }

    function PipeFrom(side: Side): Pipe {
      Pipe(From(side).buffer, trace, lastActivity)
    }

    function WithPipe(side: Side, pipe: Pipe): Session {
      WithFrom(side, From(side).(buffer := pipe.buffer)).(trace := pipe.trace, lastActivity := pipe.lastActivity)
    }

    function Log(call: Call): Session {
      this.(trace := trace + [call])
    }

    predicate Owns(fd: int) {
      fd == clientFd || fd == upstreamFd
    }
  }

  function Start(clientFd: int, upstreamFd: int, connecting: bool, capacity: nat, now: nat): (s: Session)
    ensures s.clientFd == clientFd && s.upstreamFd == upstreamFd && s.connecting == connecting
    ensures BuffersValid(s)
  {
    var idle := Flow(Buffer(capacity, 0, []), false, false);
    Session(clientFd, upstreamFd, connecting, idle, idle, false, now, now,
            if connecting then [] else [ConnectOk])
  }

  predicate BuffersValid(s: Session) {
    s.request.buffer.Valid() && s.response.buffer.Valid()
  }

  function Min(a: nat, b: nat): nat {
    if a < b then a else b
  }

  /** Reads from `from` until the kernel has no more, the buffer is full, or the stream ends. */
  function ReadInto(p: Pipe, from: Side, answers: seq<RecvAnswer>, now: nat, progressed: bool): (r: (Pipe, IoResult))
    requires p.buffer.Valid()
    ensures r.0.buffer.Valid() && r.0.buffer.capacity == p.buffer.capacity
    decreases |answers|
  {
    CompactedIsTight(p.buffer);
    var ready := p.(buffer := p.buffer.Compacted());
    var room := ready.buffer.Writable();
    var pause := if progressed then Progress else WouldBlock;
    if room == 0 || answers == [] then (ready, pause)
    else
      match answers[0]
      case Got(bytes) =>
        var count := Min(|bytes|, room);
        if count == 0 then (ready.(trace := ready.trace + [Eof(from)]), Closed)
        else ReadInto(ready.Received(from, bytes[..count], now), from, answers[1..], now, true)
      case RecvError(Interrupted) => ReadInto(ready, from, answers[1..], now, progressed)
      case RecvError(Again) => (ready, pause)
      case RecvError(Fatal) => (ready, Error)
  }

  /** Writes to `to` until the buffer is empty or the kernel takes no more. */
  function WriteFrom(p: Pipe, to: Side, answers: seq<SendAnswer>, now: nat, progressed: bool): (r: (Pipe, IoResult))
    requires p.buffer.Valid()
    ensures r.0.buffer.Valid() && r.0.buffer.capacity == p.buffer.capacity
    decreases |answers|
  {
    var data := p.buffer.data;
    var pause := if progressed then Progress else WouldBlock;
    if data == [] then (p, Progress)
    else if answers == [] then (p, pause)
    else
      match answers[0]
      case Took(offered) =>
        var count := Min(offered, |data|);
        if count == 0 then (p, Closed)
        else WriteFrom(p.Delivered(to, count, now), to, answers[1..], now, true)
      case SendError(Interrupted) => WriteFrom(p, to, answers[1..], now, progressed)
      case SendError(Again) => (p, pause)
      case SendError(Fatal) => (p, Error)
  }

  /** The pending connect has an outcome: SO_ERROR says which. */
  function FinishConnect(s: Session, answers: Answers): Session {
    if answers.connectOk
    then s.Log(ConnectOk).(connecting := false, lastActivity := answers.now)
    else s.Log(ConnectFailed).(closing := true)
  }

  function CloseRead(s: Session, from: Side): Session {
    s.WithFrom(from, s.From(from).(readClosed := true))
  }

  /** The read half of an event on `from`. */
  function Pull(s: Session, from: Side, events: Events, answers: Answers): (r: Session)
    requires BuffersValid(s)
    ensures BuffersValid(r)
  {
    if s.From(from).readClosed || !(events.input || events.PeerHangup()) then s
    else
      var (pipe, result) := ReadInto(s.PipeFrom(from), from, answers.recvs, answers.now, false);
      var read := s.WithPipe(from, pipe);
      match result
      case Error => read.(closing := true)
      case Closed => CloseRead(read, from)
      case WouldBlock => if events.PeerHangup() then CloseRead(read.Log(HungUp(from)), from) else read
      case Progress => read
  }

  /** The write half of an event on `to`. */
  function Push(s: Session, to: Side, events: Events, answers: Answers): (r: Session)
    requires BuffersValid(s)
    ensures BuffersValid(r)
  {
    if s.closing || !events.output || s.From(to.Other()).buffer.data == [] then s
    else
      var (pipe, result) := WriteFrom(s.PipeFrom(to.Other()), to, answers.sends, answers.now, false);
      var written := s.WithPipe(to.Other(), pipe);
      if result.Error? || result.Closed? then written.(closing := true) else written
  }

  /** A direction read to its end and drained is passed on as a shutdown of its destination. */
  function HalfClose(s: Session): Session {
    var s1 :=
      if s.request.readClosed && s.request.buffer.data == [] && !s.request.writeShutdown && !s.connecting
      then s.(request := s.request.(writeShutdown := true)).Log(Shutdown(Upstream)) else s;
    if s1.response.readClosed && s1.response.buffer.data == [] && !s1.response.writeShutdown
    then s1.(response := s1.response.(writeShutdown := true)).Log(Shutdown(Client)) else s1
  }

  predicate Completed(s: Session) {
    s.response.readClosed && s.response.buffer.data == []
  }

  function Settle(s: Session): Session {
    if s.closing then s
    else
      var s1 := HalfClose(s);
      s1.(closing := Completed(s1))
  }

  /** While the connect is pending, the upstream is only listened to for its outcome. */
  predicate Waits(s: Session, fd: int, events: Events) {
    fd == s.upstreamFd && s.connecting && !(events.output || events.error || events.hangup)
  }

  /** What an event does before any byte moves: a pending connect is settled, an error or a foreign
      descriptor ends the session. */
  function Admit(s: Session, fd: int, events: Events, answers: Answers): Session {
    var s1 := if fd == s.upstreamFd && s.connecting then FinishConnect(s, answers) else s;
    s1.(closing := s1.closing || events.error || !s.Owns(fd))
  }

  function Serve(s: Session, side: Side, events: Events, answers: Answers): (r: Session)
    requires BuffersValid(s)
    ensures BuffersValid(r)
  {
    Settle(Push(Pull(s, side, events, answers), side, events, answers))
  }

  /** One epoll event on `fd`. The session may go on exactly when the result is not closing. */
  function Handle(s: Session, fd: int, events: Events, answers: Answers): (r: Session)
    requires BuffersValid(s)
    ensures BuffersValid(r)
  {
    if s.closing || Waits(s, fd, events) then s
    else
      var s1 := Admit(s, fd, events, answers);
      if s1.closing then s1 else Serve(s1, if fd == s.clientFd then Client else Upstream, events, answers)
  }

  function ClientEvents(s: Session): Events
    requires BuffersValid(s)
  {
    Events(!s.request.readClosed && s.request.buffer.Writable() > 0, s.response.buffer.data != [],
           false, false, true)
  }

  function UpstreamEvents(s: Session): Events
    requires BuffersValid(s)
  {
    if s.connecting then Events(false, true, false, false, true)
    else Events(!s.response.readClosed && s.response.buffer.Writable() > 0, s.request.buffer.data != [],
                false, false, true)
  }

  predicate ConnectTimedOut(s: Session, now: nat, timeout: nat) {
    s.connecting && now - s.createdAt >= timeout
  }

  predicate IdleFor(s: Session, now: nat, timeout: nat) {
    now - s.lastActivity >= timeout
  }
}
