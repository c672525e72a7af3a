/** When a session is touched, and when it must end: what the sweep and the worker act on. */
module SessionFates {
  import opened ByteBuffers
  import opened Sessions
  import opened Traces
  import opened SessionRuns

  // The activity clock, told by the trace.

  /** The calls that count as activity: a byte moved, or the upstream connected. */
  predicate Moves(call: Call) {
    call.Recv? || call.Send? || call.ConnectOk?
  }

  function MovesIn(t: seq<Call>): nat {
    if t == [] then 0 else MovesIn(t[..|t| - 1]) + if Moves(t[|t| - 1]) then 1 else 0
  }

  lemma MovesSnoc(t: seq<Call>, call: Call)
    ensures MovesIn(t + [call]) == MovesIn(t) + if Moves(call) then 1 else 0
  {
    assert (t + [call])[..|t|] == t;
  }

  /** The clock says `now` if the trace gained a move, and what it said before otherwise. */
  predicate Clocked(before: seq<Call>, was: nat, after: seq<Call>, clock: nat, now: nat) {
    MovesIn(after) >= MovesIn(before) && clock == if MovesIn(after) > MovesIn(before) then now else was
  }

  lemma {:induction false} ReadIntoTouches(p: Pipe, from: Side, answers: seq<RecvAnswer>, now: nat, progressed: bool)
    requires p.buffer.Valid()
    ensures
      var r := ReadInto(p, from, answers, now, progressed).0;
      Clocked(p.trace, p.lastActivity, r.trace, r.lastActivity, now)
    decreases |answers|
  {
    hide MovesIn;
    CompactedIsTight(p.buffer);
    var ready := p.(buffer := p.buffer.Compacted());
    MovesSnoc(p.trace, Eof(from));
    if ready.buffer.Writable() != 0 && answers != [] {
      match answers[0]
      case Got(bytes) =>
        var count := Min(|bytes|, ready.buffer.Writable());
        if count != 0 {
          MovesSnoc(p.trace, Recv(from, bytes[..count]));
          ReadIntoTouches(ready.Received(from, bytes[..count], now), from, answers[1..], now, true);
        }
      case RecvError(Interrupted) => ReadIntoTouches(ready, from, answers[1..], now, progressed);
      case RecvError(_) =>
    }
  }

  lemma {:induction false} WriteFromTouches(p: Pipe, to: Side, answers: seq<SendAnswer>, now: nat, progressed: bool)
    requires p.buffer.Valid()
    ensures
      var r := WriteFrom(p, to, answers, now, progressed).0;
      Clocked(p.trace, p.lastActivity, r.trace, r.lastActivity, now)
    decreases |answers|
  {
    hide MovesIn;
    var data := p.buffer.data;
    if data != [] && answers != [] {
      match answers[0]
      case Took(offered) =>
        var count := Min(offered, |data|);
        if count != 0 {
          MovesSnoc(p.trace, Send(to, data[..count]));
          WriteFromTouches(p.Delivered(to, count, now), to, answers[1..], now, true);
        }
      case SendError(Interrupted) => WriteFromTouches(p, to, answers[1..], now, progressed);
      case SendError(_) =>
    }
  }

  predicate Touched(s: Session, r: Session, now: nat) {
    Clocked(s.trace, s.lastActivity, r.trace, r.lastActivity, now) && r.createdAt == s.createdAt
  }

  lemma PullTouches(s: Session, from: Side, events: Events, answers: Answers)
    requires BuffersValid(s)
    ensures Touched(s, Pull(s, from, events, answers), answers.now)
  {
    hide MovesIn, ReadInto;
    var (pipe, result) := ReadInto(s.PipeFrom(from), from, answers.recvs, answers.now, false);
    ReadIntoTouches(s.PipeFrom(from), from, answers.recvs, answers.now, false);
    MovesSnoc(pipe.trace, HungUp(from));
  }

  lemma PushTouches(s: Session, to: Side, events: Events, answers: Answers)
    requires BuffersValid(s)
    ensures Touched(s, Push(s, to, events, answers), answers.now)
  {
    hide MovesIn, WriteFrom;
    WriteFromTouches(s.PipeFrom(to.Other()), to, answers.sends, answers.now, false);
  }

  lemma SettleTouches(s: Session, now: nat)
    ensures Touched(s, Settle(s), now)
  {
    hide MovesIn;
    MovesSnoc(s.trace, Shutdown(Upstream));
    MovesSnoc(s.trace, Shutdown(Client));
    MovesSnoc(s.trace + [Shutdown(Upstream)], Shutdown(Client));
  }

  lemma AdmitTouches(s: Session, fd: int, events: Events, answers: Answers)
    ensures Touched(s, Admit(s, fd, events, answers), answers.now)
  {
    hide MovesIn;
    MovesSnoc(s.trace, ConnectOk);
    MovesSnoc(s.trace, ConnectFailed);
  }

  lemma TouchedTwice(a: Session, b: Session, c: Session, now: nat)
    requires Touched(a, b, now) && Touched(b, c, now)
    ensures Touched(a, c, now)
  {
    hide MovesIn;
  }

  /** One event touches the session exactly if it moved a byte or connected the upstream. */
  lemma EventTouches(s: Session, fd: int, events: Events, answers: Answers)
    requires BuffersValid(s)
    ensures Touched(s, Handle(s, fd, events, answers), answers.now)
  {
    hide Touched, Pull, Push, Settle, Admit;
    assert Touched(s, s, answers.now) by {
      StillTouched(s, answers.now);
    }
    if !s.closing && !Waits(s, fd, events) {
      var s1, side := Admit(s, fd, events, answers), if fd == s.clientFd then Client else Upstream;
      AdmitTouches(s, fd, events, answers);
      AdmitKeepsBuffers(s, fd, events, answers);
      if !s1.closing {
        var m := Pull(s1, side, events, answers);
        var p := Push(m, side, events, answers);
        PullTouches(s1, side, events, answers);
        PushTouches(m, side, events, answers);
        SettleTouches(p, answers.now);
        TouchedTwice(s, s1, m, answers.now);
        TouchedTwice(s, m, p, answers.now);
        TouchedTwice(s, p, Settle(p), answers.now);
      }
    }
  }

  lemma StillTouched(s: Session, now: nat)
    ensures Touched(s, s, now)
  {
  }

  lemma AdmitKeepsBuffers(s: Session, fd: int, events: Events, answers: Answers)
    requires BuffersValid(s)
    ensures BuffersValid(Admit(s, fd, events, answers))
  {
  }

  /** The time of the last event of a run in which something moved. */
  function LastMove(s: Session, inputs: seq<Input>, start: nat): nat
    requires BuffersValid(s)
  {
    if inputs == [] then start
    else
      var before, last := inputs[..|inputs| - 1], inputs[|inputs| - 1];
      if MovesIn(Run(s, inputs).trace) > MovesIn(Run(s, before).trace) then last.answers.now
      else LastMove(s, before, start)
  }

  lemma {:induction false} RunTouches(s: Session, inputs: seq<Input>)
    requires BuffersValid(s)
    ensures Run(s, inputs).lastActivity == LastMove(s, inputs, s.lastActivity)
    ensures Run(s, inputs).createdAt == s.createdAt
  {
    hide MovesIn, Handle;
    if inputs != [] {
      var last := inputs[|inputs| - 1];
      RunTouches(s, inputs[..|inputs| - 1]);
      EventTouches(Run(s, inputs[..|inputs| - 1]), last.fd, last.events, last.answers);
    }
  }

  /** A session is idle exactly if nothing has moved for that long, counted from its creation; and its
      connect is overdue exactly if it has not connected and was created that long ago. */
  lemma TimeoutsAreExact(clientFd: int, upstreamFd: int, connecting: bool, capacity: nat, created: nat,
                         inputs: seq<Input>, now: nat, timeout: nat)
    requires clientFd != upstreamFd
    ensures
      var s := Start(clientFd, upstreamFd, connecting, capacity, created);
      var r := Run(s, inputs);
      && (IdleFor(r, now, timeout) <==> now - LastMove(s, inputs, created) >= timeout)
      && (ConnectTimedOut(r, now, timeout) <==> ConnectOk !in r.trace && now - created >= timeout)
  {
    hide MovesIn, BytesIn, BytesOut, Legal, Run, LastMove;
    var s := Start(clientFd, upstreamFd, connecting, capacity, created);
    StartSettles(clientFd, upstreamFd, connecting, capacity, created);
    RunTouches(s, inputs);
    RunSettles(s, inputs);
  }

  // When an event ends the session.

  /** A fatal error of recv that is met: before the buffer is full, the stream over, or no more there. */
  predicate RecvFails(b: Buffer, answers: seq<RecvAnswer>)
    requires b.Valid()
    decreases |answers|
  {
    CompactedIsTight(b);
    var room := b.Compacted().Writable();
    && room > 0 && answers != []
    && match answers[0]
       case Got(bytes) => bytes != [] && RecvFails(b.Compacted().Written(bytes[..Min(|bytes|, room)]), answers[1..])
       case RecvError(Interrupted) => RecvFails(b, answers[1..])
       case RecvError(Again) => false
       case RecvError(Fatal) => true
  }

  /** A send of none of `left` bytes, or a fatal error of send, before the kernel pauses. */
  predicate SendFails(left: nat, answers: seq<SendAnswer>) {
    && left > 0 && answers != []
    && match answers[0]
       case Took(count) => count == 0 || (count < left && SendFails(left - count, answers[1..]))
       case SendError(Interrupted) => SendFails(left, answers[1..])
       case SendError(Again) => false
       case SendError(Fatal) => true
  }

  lemma {:induction false} ReadIntoFails(p: Pipe, from: Side, answers: seq<RecvAnswer>, now: nat, progressed: bool)
    requires p.buffer.Valid()
    ensures ReadInto(p, from, answers, now, progressed).1.Error? <==> RecvFails(p.buffer, answers)
    decreases |answers|
  {
    CompactedIsTight(p.buffer);
    var ready := p.(buffer := p.buffer.Compacted());
    if ready.buffer.Writable() != 0 && answers != [] {
      match answers[0]
      case Got(bytes) =>
        var count := Min(|bytes|, ready.buffer.Writable());
        if count != 0 {
          ReadIntoFails(ready.Received(from, bytes[..count], now), from, answers[1..], now, true);
        }
      case RecvError(Interrupted) =>
        ReadIntoFails(ready, from, answers[1..], now, progressed);
        CompactedTwice(p.buffer, answers[1..]);
      case RecvError(_) =>
    }
  }

  lemma CompactedTwice(b: Buffer, answers: seq<RecvAnswer>)
    requires b.Valid() && b.Compacted().Valid()
    ensures RecvFails(b.Compacted(), answers) == RecvFails(b, answers)
  {
    assert b.Compacted().Compacted() == b.Compacted();
  }

  lemma {:induction false} WriteFromFails(p: Pipe, to: Side, answers: seq<SendAnswer>, now: nat, progressed: bool)
    requires p.buffer.Valid()
    ensures
      var r := WriteFrom(p, to, answers, now, progressed).1;
      r.Error? || r.Closed? <==> SendFails(|p.buffer.data|, answers)
    decreases |answers|
  {
    var data := p.buffer.data;
    if data != [] && answers != [] {
      match answers[0]
      case Took(offered) =>
        var count := Min(offered, |data|);
        if count != 0 {
          WriteFromFails(p.Delivered(to, count, now), to, answers[1..], now, true);
        }
      case SendError(Interrupted) => WriteFromFails(p, to, answers[1..], now, progressed);
      case SendError(_) =>
    }
  }

  /** The only events that are ignored: before the connect has an outcome, the upstream says nothing
      but that it can be read or has half-closed. */
  predicate Ignored(s: Session, fd: int, events: Events) {
    fd == s.upstreamFd && s.connecting && !events.output && !events.error && !events.hangup
  }

  /** What ends a session at once: an error flag, a foreign descriptor, a failed connect, a failed
      recv on a side still being read, a failed send of something buffered. */
  predicate Broken(s: Session, fd: int, events: Events, answers: Answers)
    requires BuffersValid(s)
  {
    var side := if fd == s.clientFd then Client else Upstream;
    || events.error
    || (fd != s.clientFd && fd != s.upstreamFd)
    || (fd == s.upstreamFd && s.connecting && !answers.connectOk)
    || ((events.input || events.hangup || events.readHangup) && !s.From(side).readClosed
        && RecvFails(s.From(side).buffer, answers.recvs))
    || (events.output && SendFails(|s.From(side.Other()).buffer.data|, answers.sends))
  }

  lemma PullEnds(s: Session, from: Side, events: Events, answers: Answers)
    requires BuffersValid(s) && !s.closing
    ensures
      var r := Pull(s, from, events, answers);
      && (r.closing <==> (events.input || events.hangup || events.readHangup) && !s.From(from).readClosed
                         && RecvFails(s.From(from).buffer, answers.recvs))
      && r.From(from.Other()) == s.From(from.Other())
      && r.response.writeShutdown == s.response.writeShutdown
  {
    hide ReadInto, RecvFails;
    ReadIntoFails(s.PipeFrom(from), from, answers.recvs, answers.now, false);
  }

  lemma PushEnds(s: Session, to: Side, events: Events, answers: Answers)
    requires BuffersValid(s)
    ensures
      var r := Push(s, to, events, answers);
      && (s.closing ==> r == s)
      && (!s.closing ==>
            (r.closing <==> events.output && SendFails(|s.From(to.Other()).buffer.data|, answers.sends)))
      && r.response.writeShutdown == s.response.writeShutdown
  {
    hide WriteFrom;
    WriteFromFails(s.PipeFrom(to.Other()), to, answers.sends, answers.now, false);
  }

  lemma SettleEnds(s: Session)
    ensures
      var r := Settle(s);
      var over := r.response.readClosed && r.response.buffer.data == [];
      && (s.closing ==> r == s)
      && (!s.closing ==> (r.closing <==> over)
                         && (r.response.writeShutdown <==> s.response.writeShutdown || over))
  {
  }

  lemma ServeEnds(s: Session, side: Side, events: Events, answers: Answers)
    requires BuffersValid(s) && !s.closing && !s.response.writeShutdown
    ensures
      var r := Serve(s, side, events, answers);
      var breaks :=
        || ((events.input || events.hangup || events.readHangup) && !s.From(side).readClosed
            && RecvFails(s.From(side).buffer, answers.recvs))
        || (events.output && SendFails(|s.From(side.Other()).buffer.data|, answers.sends));
      var over := r.response.readClosed && r.response.buffer.data == [];
      (r.closing <==> breaks || over) && (r.response.writeShutdown <==> !breaks && over)
  {
    hide Pull, Push, Settle, RecvFails, SendFails;
    PullEnds(s, side, events, answers);
    var m := Pull(s, side, events, answers);
    PushEnds(m, side, events, answers);
    SettleEnds(Push(m, side, events, answers));
  }

  lemma ShutIsTold(s: Session)
    requires Settled(s)
    ensures Shutdown(Client) in s.trace <==> s.response.writeShutdown
  {
    assert Agrees(s.response, PastOf(s.trace, Upstream));
  }

  /** After one event a session is over exactly if something broke, or the response has been read to
      its end and delivered; in the latter case, and in no other, the client is told so. */
  lemma EventEnds(s: Session, fd: int, events: Events, answers: Answers)
    requires Settled(s) && !s.closing
    ensures
      var r := Handle(s, fd, events, answers);
      if Ignored(s, fd, events) then r == s
      else
        && (r.closing <==> Broken(s, fd, events, answers) || (r.response.readClosed && r.response.buffer.data == []))
        && (Shutdown(Client) in r.trace <==>
              !Broken(s, fd, events, answers) && r.response.readClosed && r.response.buffer.data == [])
  {
    hide Serve, RecvFails, SendFails, BytesIn, BytesOut, Legal;
    HandleSettles(s, fd, events, answers);
    ShutIsTold(Handle(s, fd, events, answers));
    if !Ignored(s, fd, events) {
      var s1 := Admit(s, fd, events, answers);
      if !s1.closing {
        ServeEnds(s1, if fd == s.clientFd then Client else Upstream, events, answers);
      }
    }
  }
}
