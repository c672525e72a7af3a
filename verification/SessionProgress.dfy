/** What a session gets done when its peers cooperate: every such run is short, and it ends with
    both streams delivered. */
module SessionProgress {
  import opened ByteBuffers
  import opened Sessions
  import opened Traces
  import opened SessionRuns
  import opened SessionTheorems

  /** What one peer has sent and the proxy has not read yet, and whether a FIN follows it. */
  datatype Wire = Wire(unread: seq<byte>, fin: bool)

  datatype Wires = Wires(client: Wire, upstream: Wire) {
    function At(side: Side): Wire {
      if side.Client? then client else upstream
    }

    function Without(side: Side, count: nat): Wires
      requires count <= |At(side).unread|
    {
      var rest := Wire(At(side).unread[count..], At(side).fin);
      if side.Client? then this.(client := rest) else this.(upstream := rest)
    }
  }

  function SideOf(s: Session, fd: int): Side {
    if fd == s.clientFd then Client else Upstream
  }

  function AskedFor(s: Session, side: Side): Events
    requires BuffersValid(s)
  {
    if side.Client? then ClientEvents(s) else UpstreamEvents(s)
  }

  predicate Reads(s: Session, side: Side, events: Events) {
    !s.From(side).readClosed && (events.input || events.PeerHangup())
  }

  function Free(s: Session, side: Side): nat
    requires BuffersValid(s)
  {
    s.From(side).buffer.capacity - |s.From(side).buffer.data|
  }

  /** The kernel takes at least one byte, and only ever pauses. */
  predicate Accepting(sends: seq<SendAnswer>) {
    Taken(sends) > 0 && Took(0) !in sends && SendError(Fatal) !in sends
  }

  /** The socket of `side` hands out what is on its wire, and takes what it is given. A hangup flag
      follows a FIN and, if input is not reported with it, comes while there is room to read. */
  predicate Willing(s: Session, side: Side, events: Events, answers: Answers, wire: Wire)
    requires BuffersValid(s)
  {
    && !events.error
    && (events.PeerHangup() ==> wire.fin)
    && (Reads(s, side, events) ==>
          (events.input || Free(s, side) > 0)
          && Socket(s.PipeFrom(side), side, answers.recvs, wire.unread, wire.fin, answers.now))
    && (events.output ==> Accepting(answers.sends))
  }

  /** The pending connect, if there is one, succeeds. */
  function Connected(s: Session, side: Side, now: nat): Session {
    if side.Upstream? && s.connecting then s.Log(ConnectOk).(connecting := false, lastActivity := now) else s
  }

  /** An event that was asked for, finds something to do, and meets willing peers: whatever a session
      asks for and gets has to be of use to it. */
  predicate Cooperative(s: Session, w: Wires, i: Input)
    requires BuffersValid(s)
  {
    var side := SideOf(s, i.fd);
    var connects := side.Upstream? && s.connecting;
    && !s.closing && s.Owns(i.fd)
    && (i.events.input ==> AskedFor(s, side).input)
    && (i.events.output ==> AskedFor(s, side).output)
    && (connects && (i.events.output || i.events.hangup) ==> i.answers.connectOk)
    && Willing(Connected(s, side, i.answers.now), side, i.events, i.answers, w.At(side))
    && (|| i.events.output
        || (i.events.input && w.At(side) != Wire([], false))
        || (if connects then i.events.hangup else Reads(s, side, i.events) && w.At(side) != Wire([], false)))
  }

  /** What an event leaves on the wires. */
  function Remaining(s: Session, w: Wires, i: Input): Wires
    requires BuffersValid(s)
  {
    var side := SideOf(s, i.fd);
    if Reads(s, side, i.events) then w.Without(side, Min(|w.At(side).unread|, Free(s, side))) else w
  }

  /** A run of such events. */
  predicate Cooperation(s: Session, w: Wires, inputs: seq<Input>)
    requires BuffersValid(s)
  {
    inputs == [] ||
    (var before, last := inputs[..|inputs| - 1], inputs[|inputs| - 1];
     Cooperation(s, w, before) && Cooperative(Run(s, before), RemainingAfter(s, w, before), last))
  }

  function RemainingAfter(s: Session, w: Wires, inputs: seq<Input>): Wires
    requires BuffersValid(s)
  {
    if inputs == [] then w
    else
      var before, last := inputs[..|inputs| - 1], inputs[|inputs| - 1];
      Remaining(Run(s, before), RemainingAfter(s, w, before), last)
  }

  /** What one direction still needs: each unread byte is read and sent, each buffered byte is sent,
      and the end is noticed. */
  function Due(s: Session, w: Wires, side: Side): nat {
    2 * |w.At(side).unread| + |s.From(side).buffer.data| + if s.From(side).readClosed then 0 else 1
  }

  function Effort(s: Session, w: Wires): nat {
    Due(s, w, Client) + Due(s, w, Upstream) + if s.connecting then 1 else 0
  }

  // The two halves of an event.

  lemma {:induction false} WriteFromPauses(p: Pipe, to: Side, answers: seq<SendAnswer>, now: nat, progressed: bool)
    requires p.buffer.Valid() && Took(0) !in answers && SendError(Fatal) !in answers
    ensures
      var r := WriteFrom(p, to, answers, now, progressed);
      r.1.Progress? || r.1.WouldBlock?
    decreases |answers|
  {
    if p.buffer.data != [] && answers != [] {
      match answers[0]
      case Took(offered) =>
        WriteFromPauses(p.Delivered(to, Min(offered, |p.buffer.data|), now), to, answers[1..], now, true);
      case SendError(Interrupted) => WriteFromPauses(p, to, answers[1..], now, progressed);
      case SendError(_) =>
    }
  }

  /** What pulling leaves: the bytes taken from the wire are in the buffer, and the read side is
      closed only at the end of the stream. */
  predicate Pulled(s: Session, r: Session, side: Side, events: Events, wire: Wire)
    requires BuffersValid(s)
  {
    var taken := if Reads(s, side, events) then Min(|wire.unread|, Free(s, side)) else 0;
    && r.closing == s.closing && r.connecting == s.connecting
    && r.From(side.Other()) == s.From(side.Other())
    && |r.From(side).buffer.data| == |s.From(side).buffer.data| + taken
    && BytesIn(r.trace, side) == BytesIn(s.trace, side) + wire.unread[..taken]
    && BytesIn(r.trace, side.Other()) == BytesIn(s.trace, side.Other())
    && r.From(side).readClosed
         == (s.From(side).readClosed || (Reads(s, side, events) && wire.fin && taken == |wire.unread| < Free(s, side)))
  }

  lemma PullHelps(s: Session, side: Side, events: Events, answers: Answers, wire: Wire)
    requires Sound(s) && !s.closing && (side.Upstream? ==> !s.connecting)
    requires Willing(s, side, events, answers, wire) && (Reads(s, side, events) ==> Free(s, side) > 0)
    ensures Pulled(s, Pull(s, side, events, answers), side, events, wire)
  {
    hide ReadInto, Socket, BytesIn, BytesOut, Legal, Accepting;
    if Reads(s, side, events) {
      var pipe := s.PipeFrom(side);
      assert BytesIn(s.trace, side) == BytesOut(s.trace, side.Other()) + pipe.buffer.data;
      ReadsAPrefix(pipe, side, answers.recvs, wire.unread, wire.fin, answers.now, BytesOut(s.trace, side.Other()));
      OnlyOneSideGains(s, side, events, answers);
    }
  }

  lemma OnlyOneSideGains(s: Session, side: Side, events: Events, answers: Answers)
    requires Sound(s) && (side.Upstream? ==> !s.connecting)
    ensures BytesIn(Pull(s, side, events, answers).trace, side.Other()) == BytesIn(s.trace, side.Other())
  {
    hide ReadInto, Legal, BytesIn, BytesOut, Open;
    PullIsSound(s, side, events, answers);
    var (pipe, result) := ReadInto(s.PipeFrom(side), side, answers.recvs, answers.now, false);
    ReadIntoSendsNothing(s.PipeFrom(side), side, answers.recvs, answers.now, false, side);
    Snoc(pipe.trace, HungUp(side), side);
    var r, other := Pull(s, side, events, answers), side.Other();
    assert BytesOut(r.trace, side) == BytesOut(s.trace, side);
    assert Agrees(s.From(other), PastOf(s.trace, other)) && Agrees(r.From(other), PastOf(r.trace, other));
  }

  /** What pushing leaves: at least one buffered byte less, if it was asked for and there was one. */
  predicate Pushed(s: Session, r: Session, to: Side, events: Events) {
    && r.closing == s.closing && r.connecting == s.connecting
    && r.From(to) == s.From(to)
    && r.From(to.Other()).readClosed == s.From(to.Other()).readClosed
    && |r.From(to.Other()).buffer.data| <= |s.From(to.Other()).buffer.data|
    && (events.output && s.From(to.Other()).buffer.data != [] ==>
          |r.From(to.Other()).buffer.data| < |s.From(to.Other()).buffer.data|)
  }

  lemma PushHelps(s: Session, to: Side, events: Events, answers: Answers)
    requires BuffersValid(s) && !s.closing && (events.output ==> Accepting(answers.sends))
    ensures Pushed(s, Push(s, to, events, answers), to, events)
  {
    if events.output {
      var pipe := s.PipeFrom(to.Other());
      WriteFromPauses(pipe, to, answers.sends, answers.now, false);
      WriteFromDrains(pipe, to, answers.sends, answers.now, false);
    }
    hide WriteFrom;
  }

  lemma SettleSettlesLittle(s: Session)
    requires !s.closing
    ensures
      var r := Settle(s);
      && r.connecting == s.connecting && (r.closing <==> Completed(r))
      && forall side: Side ::
           r.From(side).readClosed == s.From(side).readClosed && r.From(side).buffer == s.From(side).buffer
  {
  }

  // One event, then any number of them.

  /** No byte of a stream is anywhere but received or on its wire, and a read side is closed only
      with nothing left on the wire. */
  ghost predicate InTransit(s: Session, w: Wires, request: seq<byte>, response: seq<byte>) {
    && BytesIn(s.trace, Client) + w.client.unread == request
    && BytesIn(s.trace, Upstream) + w.upstream.unread == response
    && (forall side: Side :: s.From(side).readClosed ==> w.At(side).unread == [] && w.At(side).fin)
  }

  lemma ConnectedIsSound(s: Session, i: Input, w: Wires)
    requires Settled(s) && Cooperative(s, w, i)
    ensures
      var side := SideOf(s, i.fd);
      var s1 := Connected(s, side, i.answers.now);
      && BuffersValid(s1) && Sound(s1) && !s1.closing && (side.Upstream? ==> !s1.connecting)
      && s1.request == s.request && s1.response == s.response
      && Handle(s, i.fd, i.events, i.answers) == Serve(s1, side, i.events, i.answers)
      && (Reads(s1, side, i.events) ==> Free(s1, side) > 0)
      && BytesIn(s1.trace, Client) == BytesIn(s.trace, Client)
      && BytesIn(s1.trace, Upstream) == BytesIn(s.trace, Upstream)
  {
    hide BytesIn, BytesOut, Legal, Serve, Socket;
    AdmitIsSound(s, i.fd, i.events, i.answers);
    Snoc(s.trace, ConnectOk, Client);
    Snoc(s.trace, ConnectOk, Upstream);
  }

  /** What a willing event leaves of a connected session. */
  predicate Served(s: Session, r: Session, side: Side, events: Events, wire: Wire)
    requires BuffersValid(s)
  {
    var taken := if Reads(s, side, events) then Min(|wire.unread|, Free(s, side)) else 0;
    && r.connecting == s.connecting && (r.closing ==> Completed(r))
    && |r.From(side).buffer.data| == |s.From(side).buffer.data| + taken
    && BytesIn(r.trace, side) == BytesIn(s.trace, side) + wire.unread[..taken]
    && BytesIn(r.trace, side.Other()) == BytesIn(s.trace, side.Other())
    && r.From(side).readClosed
         == (s.From(side).readClosed || (Reads(s, side, events) && wire.fin && taken == |wire.unread| < Free(s, side)))
    && r.From(side.Other()).readClosed == s.From(side.Other()).readClosed
    && |r.From(side.Other()).buffer.data| <= |s.From(side.Other()).buffer.data|
    && (events.output && s.From(side.Other()).buffer.data != [] ==>
          |r.From(side.Other()).buffer.data| < |s.From(side.Other()).buffer.data|)
  }

  lemma ServeHelps(s: Session, side: Side, events: Events, answers: Answers, wire: Wire)
    requires Sound(s) && !s.closing && (side.Upstream? ==> !s.connecting)
    requires Willing(s, side, events, answers, wire) && (Reads(s, side, events) ==> Free(s, side) > 0)
    ensures Served(s, Serve(s, side, events, answers), side, events, wire)
  {
    PullHelps(s, side, events, answers, wire);
    var m := Pull(s, side, events, answers);
    PushHelps(m, side, events, answers);
    PushGainsNothing(m, side, events, answers, Client);
    PushGainsNothing(m, side, events, answers, Upstream);
    SettleSettlesLittle(Push(m, side, events, answers));
    hide Pull, Push, Settle, Sound, BytesIn, Socket, Accepting, Reads;
  }

  lemma EventHelps(s: Session, w: Wires, i: Input, request: seq<byte>, response: seq<byte>)
    requires Settled(s) && Cooperative(s, w, i) && InTransit(s, w, request, response)
    ensures
      var r, w' := Handle(s, i.fd, i.events, i.answers), Remaining(s, w, i);
      && (r.closing ==> Completed(r))
      && InTransit(r, w', request, response)
      && Effort(r, w') < Effort(s, w)
  {
    hide Serve, Handle, Sound, BytesIn, Willing, Settled, Served, InTransit, Effort, Cooperative, Remaining;
    var side, s1 := SideOf(s, i.fd), Connected(s, SideOf(s, i.fd), i.answers.now);
    ConnectedIsSound(s, i, w);
    TransitConnected(s, w, i, request, response);
    ServeHelps(s1, side, i.events, i.answers, w.At(side));
    var r := Handle(s, i.fd, i.events, i.answers);
    assert r.closing ==> Completed(r) by {
      ServedCompletes(s1, r, side, i.events, w.At(side));
    }
    StreamsKept(s, s1, r, w, i, request, response);
    EffortFalls(s, s1, r, w, i);
  }

  lemma ServedCompletes(s: Session, r: Session, side: Side, events: Events, wire: Wire)
    requires BuffersValid(s) && Served(s, r, side, events, wire)
    ensures r.closing ==> Completed(r)
  {
  }

  lemma TransitConnected(s: Session, w: Wires, i: Input, request: seq<byte>, response: seq<byte>)
    requires InTransit(s, w, request, response) && Settled(s) && Cooperative(s, w, i)
    ensures InTransit(Connected(s, SideOf(s, i.fd), i.answers.now), w, request, response)
    ensures Willing(Connected(s, SideOf(s, i.fd), i.answers.now), SideOf(s, i.fd), i.events, i.answers,
                    w.At(SideOf(s, i.fd)))
  {
    hide BytesIn, BytesOut, Legal, Willing;
    Snoc(s.trace, ConnectOk, Client);
    Snoc(s.trace, ConnectOk, Upstream);
  }

  lemma EffortFalls(s: Session, s1: Session, r: Session, w: Wires, i: Input)
    requires BuffersValid(s) && s1 == Connected(s, SideOf(s, i.fd), i.answers.now)
    requires Cooperative(s, w, i) && Served(s1, r, SideOf(s, i.fd), i.events, w.At(SideOf(s, i.fd)))
    ensures Effort(r, Remaining(s, w, i)) < Effort(s, w)
  {
    hide BytesIn, Completed, Socket, Accepting;
  }

  lemma StreamsKept(s: Session, s1: Session, r: Session, w: Wires, i: Input, request: seq<byte>, response: seq<byte>)
    requires BuffersValid(s) && BuffersValid(s1) && s1.request == s.request && s1.response == s.response
    requires InTransit(s1, w, request, response) && Served(s1, r, SideOf(s, i.fd), i.events, w.At(SideOf(s, i.fd)))
    ensures InTransit(r, Remaining(s, w, i), request, response)
  {
    hide BytesIn;
    var side := SideOf(s, i.fd);
    var wire := w.At(side);
    var taken := if Reads(s, side, i.events) then Min(|wire.unread|, Free(s, side)) else 0;
    TakenAndLeft(BytesIn(s1.trace, side), wire.unread, taken);
  }

  lemma TakenAndLeft(received: seq<byte>, unread: seq<byte>, taken: nat)
    requires taken <= |unread|
    ensures received + unread[..taken] + unread[taken..] == received + unread
  {
  }

  /** Every cooperative run keeps both streams in transit and is at most as long as the effort. */
  lemma {:induction false} CooperationEnds(s: Session, w: Wires, inputs: seq<Input>, request: seq<byte>,
                                           response: seq<byte>)
    requires Settled(s) && Cooperation(s, w, inputs) && InTransit(s, w, request, response)
    requires s.closing ==> Completed(s)
    ensures
      var r, left := Run(s, inputs), RemainingAfter(s, w, inputs);
      && Settled(r) && SameShape(s, r) && (r.closing ==> Completed(r))
      && InTransit(r, left, request, response)
      && left.client.fin == w.client.fin && left.upstream.fin == w.upstream.fin
      && |inputs| + Effort(r, left) <= Effort(s, w)
  {
    hide Settled, Cooperative, InTransit, Effort, Handle, Completed, SameShape, BuffersValid;
    SettledIsValid(s);
    RunSettles(s, inputs);
    if inputs != [] {
      var before, last := inputs[..|inputs| - 1], inputs[|inputs| - 1];
      RunSettles(s, before);
      CooperationEnds(s, w, before, request, response);
      EventHelps(Run(s, before), RemainingAfter(s, w, before), last, request, response);
    }
  }

  /** Nothing left to do: connected, and in both directions nothing unread, nothing buffered, and no
      end of stream unnoticed. */
  predicate Done(s: Session, w: Wires) {
    && !s.connecting
    && w.client.unread == [] && s.request.buffer.data == [] && (w.client.fin ==> s.request.readClosed)
    && w.upstream.unread == [] && s.response.buffer.data == [] && (w.upstream.fin ==> s.response.readClosed)
  }

  /** Whatever is on a wire, and wherever the cursors stand, a socket can hand it out. */
  lemma {:induction false} HonestAnswers(p: Pipe, from: Side, wire: Wire, now: nat) returns (answers: seq<RecvAnswer>)
    requires p.buffer.Valid()
    ensures Socket(p, from, answers, wire.unread, wire.fin, now)
    decreases |wire.unread|
  {
    CompactedIsTight(p.buffer);
    var ready := p.(buffer := p.buffer.Compacted());
    if ready.buffer.Writable() == 0 {
      return [];
    }
    if wire.unread == [] {
      return [if wire.fin then Got([]) else RecvError(Again)];
    }
    var count := Min(|wire.unread|, ready.buffer.Writable());
    var rest := HonestAnswers(ready.Received(from, wire.unread[..count], now), from,
                              Wire(wire.unread[count..], wire.fin), now);
    answers := [Got(wire.unread)] + rest;
    assert answers[1..] == rest;
  }

  /** While anything is left to do, some event that was asked for can do part of it. */
  lemma SomethingHelps(s: Session, w: Wires, request: seq<byte>, response: seq<byte>) returns (i: Input)
    requires Settled(s) && !s.closing && InTransit(s, w, request, response) && !Done(s, w)
    requires s.request.buffer.capacity > 0 && s.response.buffer.capacity > 0
    ensures Cooperative(s, w, i)
  {
    NeverStalls(s);
    hide BytesIn, BytesOut, Legal, Socket;
    var output := Events(false, true, false, false, false);
    var input := Events(true, false, false, false, false);
    var takes := [Took(1)];
    assert Taken(takes) > 0 && Took(0) !in takes && SendError(Fatal) !in takes;
    if s.connecting || s.request.buffer.data != [] {
      return Input(s.upstreamFd, output, Answers(true, 0, [], takes));
    }
    if s.response.buffer.data != [] {
      return Input(s.clientFd, output, Answers(true, 0, [], takes));
    }
    if w.client.unread != [] || (w.client.fin && !s.request.readClosed) {
      var honest := HonestAnswers(s.PipeFrom(Client), Client, w.client, 0);
      return Input(s.clientFd, input, Answers(true, 0, honest, []));
    }
    var honest := HonestAnswers(s.PipeFrom(Upstream), Upstream, w.upstream, 0);
    return Input(s.upstreamFd, input, Answers(true, 0, honest, []));
  }

  /** No event that was asked for can do anything more, or the session is over. */
  ghost predicate Finished(s: Session, w: Wires)
    requires BuffersValid(s)
  {
    forall i :: !Cooperative(s, w, i)
  }

  /** Every cooperative run can be continued until it is finished. */
  lemma {:induction false} CooperationGoesOn(s: Session, w: Wires, inputs: seq<Input>, request: seq<byte>,
                                             response: seq<byte>) returns (all: seq<Input>)
    requires Settled(s) && !s.closing && Cooperation(s, w, inputs) && InTransit(s, w, request, response)
    ensures inputs <= all && Cooperation(s, w, all) && Finished(Run(s, all), RemainingAfter(s, w, all))
    decreases Effort(s, w) - |inputs|
  {
    CooperationEnds(s, w, inputs, request, response);
    hide Settled, Cooperative, InTransit, Effort, Handle;
    var r, left := Run(s, inputs), RemainingAfter(s, w, inputs);
    if i :| Cooperative(r, left, i) {
      assert (inputs + [i])[..|inputs|] == inputs;
      CooperationEnds(s, w, inputs + [i], request, response);
      all := CooperationGoesOn(s, w, inputs + [i], request, response);
      assert inputs <= inputs + [i] <= all;
    } else {
      all := inputs;
    }
  }

  lemma StartIsInTransit(clientFd: int, upstreamFd: int, connecting: bool, capacity: nat, now: nat, w: Wires)
    ensures InTransit(Start(clientFd, upstreamFd, connecting, capacity, now), w, w.client.unread, w.upstream.unread)
  {
    assert BytesIn([ConnectOk], Client) == BytesIn([], Client);
    assert BytesIn([ConnectOk], Upstream) == BytesIn([], Upstream);
  }

  /** What it means that a cooperative run is finished, for the bytes that were sent. */
  lemma FinishedIsDelivered(s: Session, w: Wires, request: seq<byte>, response: seq<byte>)
    requires Settled(s) && InTransit(s, w, request, response) && Finished(s, w) && (s.closing ==> Completed(s))
    requires s.request.buffer.capacity > 0 && s.response.buffer.capacity > 0
    ensures BytesOut(s.trace, Client) == response && Open(s.trace, Upstream) == !w.upstream.fin
    ensures s.closing == w.upstream.fin
    ensures !w.upstream.fin ==> BytesOut(s.trace, Upstream) == request
    ensures !w.upstream.fin ==> (Shutdown(Upstream) in s.trace <==> w.client.fin)
  {
    if !s.closing && !Done(s, w) {
      var i := SomethingHelps(s, w, request, response);
    }
    SettledIsFaithful(s, Client);
    SettledIsFaithful(s, Upstream);
    hide BytesIn, BytesOut, Legal, Finished;
  }

  /** Whatever the peers send and however long the kernel takes, in whatever portions and order: a
      run of events that were asked for, with peers that cooperate, is at most two events per byte
      and three more; and a finished one has delivered the whole response, and the whole request
      unless the upstream ended the session first. The upstream learns that the request is over
      exactly if the client said so. */
  lemma EveryServiceDelivers(clientFd: int, upstreamFd: int, connecting: bool, capacity: nat, now: nat, w: Wires,
                             inputs: seq<Input>)
    requires clientFd != upstreamFd && capacity > 0
    requires Cooperation(Start(clientFd, upstreamFd, connecting, capacity, now), w, inputs)
    ensures |inputs| <= 2 * |w.client.unread| + 2 * |w.upstream.unread| + 3
    ensures
      var s := Start(clientFd, upstreamFd, connecting, capacity, now);
      var r := Run(s, inputs);
      Finished(r, RemainingAfter(s, w, inputs)) ==>
        && BytesOut(r.trace, Client) == w.upstream.unread
        && r.closing == w.upstream.fin
        && (!w.upstream.fin ==>
              && BytesOut(r.trace, Upstream) == w.client.unread
              && (Shutdown(Upstream) in r.trace <==> w.client.fin))
  {
    var s := Start(clientFd, upstreamFd, connecting, capacity, now);
    StartSettles(clientFd, upstreamFd, connecting, capacity, now);
    StartIsInTransit(clientFd, upstreamFd, connecting, capacity, now, w);
    assert Effort(s, w) <= 2 * |w.client.unread| + 2 * |w.upstream.unread| + 3;
    hide Settled, InTransit, Cooperation, BytesOut;
    CooperationEnds(s, w, inputs, w.client.unread, w.upstream.unread);
    if Finished(Run(s, inputs), RemainingAfter(s, w, inputs)) {
      FinishedIsDelivered(Run(s, inputs), RemainingAfter(s, w, inputs), w.client.unread, w.upstream.unread);
    }
  }

  /** And there always is such a run: from wherever a cooperative run has got to. */
  lemma EveryServiceCanFinish(clientFd: int, upstreamFd: int, connecting: bool, capacity: nat, now: nat, w: Wires,
                              inputs: seq<Input>) returns (all: seq<Input>)
    requires clientFd != upstreamFd
    requires Cooperation(Start(clientFd, upstreamFd, connecting, capacity, now), w, inputs)
    ensures
      var s := Start(clientFd, upstreamFd, connecting, capacity, now);
      inputs <= all && Cooperation(s, w, all) && Finished(Run(s, all), RemainingAfter(s, w, all))
  {
    var s := Start(clientFd, upstreamFd, connecting, capacity, now);
    StartSettles(clientFd, upstreamFd, connecting, capacity, now);
    StartIsInTransit(clientFd, upstreamFd, connecting, capacity, now, w);
    hide Settled, InTransit, Cooperation, Run, RemainingAfter;
    all := CooperationGoesOn(s, w, inputs, w.client.unread, w.upstream.unread);
  }
}
