/** What a correct relay may do, said about the trace of its calls alone. */
module Traces {
  import opened ByteBuffers
  import opened Sessions

  /** All bytes received from a side, in order. */
  function BytesIn(t: seq<Call>, from: Side): seq<byte> {
    if t == [] then []
    else
      var last := t[|t| - 1];
      BytesIn(t[..|t| - 1], from) + if last.Recv? && last.from == from then last.bytes else []
  }

  /** All bytes sent to a side, in order. */
  function BytesOut(t: seq<Call>, to: Side): seq<byte> {
    if t == [] then []
    else
      var last := t[|t| - 1];
      BytesOut(t[..|t| - 1], to) + if last.Send? && last.to == to then last.bytes else []
  }

  predicate Open(t: seq<Call>, from: Side) {
    Eof(from) !in t && HungUp(from) !in t
  }

  predicate Reachable(t: seq<Call>, side: Side) {
    side.Client? || ConnectOk in t
  }

  /** May `call` follow the calls in `past`? */
  predicate Allowed(past: seq<Call>, call: Call) {
    match call
    case Recv(from, bytes) => bytes != [] && Open(past, from) && Reachable(past, from)
    case Eof(from) => Open(past, from) && Reachable(past, from)
    case HungUp(from) => Open(past, from) && Reachable(past, from)
    case Send(to, bytes) =>
      && bytes != []
      && Shutdown(to) !in past
      && Reachable(past, to)
      && BytesOut(past, to) + bytes <= BytesIn(past, to.Other())
    case Shutdown(to) =>
      && Shutdown(to) !in past
      && Reachable(past, to)
      && !Open(past, to.Other())
      && BytesOut(past, to) == BytesIn(past, to.Other())
    case ConnectOk => ConnectOk !in past && ConnectFailed !in past
    case ConnectFailed => ConnectOk !in past && ConnectFailed !in past
  }

  predicate AllowedAt(t: seq<Call>, i: nat)
    requires i < |t|
  {
    Allowed(t[..i], t[i])
  }

  /** Every call was allowed when it was made. */
  predicate Legal(t: seq<Call>) {
    forall i: nat | i < |t| :: AllowedAt(t, i)
  }

  lemma Snoc(t: seq<Call>, call: Call, side: Side)
    ensures BytesIn(t + [call], side) == BytesIn(t, side) + if call.Recv? && call.from == side then call.bytes else []
    ensures BytesOut(t + [call], side) == BytesOut(t, side) + if call.Send? && call.to == side then call.bytes else []
  {
    assert (t + [call])[..|t|] == t;
  }

  lemma LegalSnoc(t: seq<Call>, call: Call)
    requires Legal(t)
    ensures Legal(t + [call]) <==> Allowed(t, call)
  {
    var u := t + [call];
    assert u[..|t|] == t;
    assert AllowedAt(u, |t|) == Allowed(t, call);
    forall i: nat | i < |t| ensures AllowedAt(u, i) == AllowedAt(t, i) {
      assert u[..i] == t[..i];
    }
  }

  lemma LegalPrefix(t: seq<Call>, n: nat)
    requires Legal(t) && n <= |t|
    ensures Legal(t[..n])
  {
    forall i: nat | i < n ensures AllowedAt(t[..n], i) {
      assert t[..n][..i] == t[..i];
      assert AllowedAt(t, i);
    }
  }

  lemma {:induction false} OnlyGrows(t: seq<Call>, i: nat, side: Side)
    requires i <= |t|
    ensures BytesIn(t[..i], side) <= BytesIn(t, side)
    ensures BytesOut(t[..i], side) <= BytesOut(t, side)
  {
    if i < |t| {
      var u := t[..|t| - 1];
      OnlyGrows(u, i, side);
      assert t[..i] == u[..i];
    } else {
      assert t[..i] == t;
    }
  }

  /** On a legal trace nothing is ever delivered that was not received before, in the same order. */
  lemma {:induction false} SentIsPrefix(t: seq<Call>, to: Side)
    requires Legal(t)
    ensures BytesOut(t, to) <= BytesIn(t, to.Other())
  {
    if t != [] {
      var u := t[..|t| - 1];
      LegalPrefix(t, |t| - 1);
      assert AllowedAt(t, |t| - 1);
      SentIsPrefix(u, to);
      OnlyGrows(t, |t| - 1, to.Other());
    }
  }

  /** On a legal trace a side is shut down at most once; from then on nothing is sent to it and
      nothing is received for it. */
  lemma ShutdownIsLast(t: seq<Call>, at: nat, j: nat, to: Side)
    requires Legal(t) && at < j < |t| && t[at] == Shutdown(to)
    ensures t[j] != Shutdown(to)
    ensures t[j].Send? ==> t[j].to != to
    ensures t[j].Recv? ==> t[j].from != to.Other()
  {
    var past := t[..j];
    assert AllowedAt(t, j) && past[at] == Shutdown(to);
    assert !Open(past, to.Other()) by {
      assert AllowedAt(t, at);
      var closed :| closed in t[..at] && (closed == Eof(to.Other()) || closed == HungUp(to.Other()));
      var k :| 0 <= k < at && t[..at][k] == closed;
      assert past[k] == closed;
    }
  }

  /** So what a side had been sent when it was shut down is all it is ever sent, and all that was
      ever received for it. */
  lemma {:induction false} ShutdownIsComplete(t: seq<Call>, at: nat, to: Side)
    requires Legal(t) && at < |t| && t[at] == Shutdown(to)
    ensures BytesOut(t[..at], to) == BytesOut(t, to) == BytesIn(t, to.Other())
  {
    var last := |t| - 1;
    if at < last {
      var u := t[..last];
      LegalPrefix(t, last);
      ShutdownIsComplete(u, at, to);
      assert t[..at] == u[..at];
      ShutdownIsLast(t, at, last, to);
    } else {
      assert AllowedAt(t, at);
    }
  }

  /** 1 if the trace gained `call`. */
  function Newly(call: Call, before: seq<Call>, after: seq<Call>): nat {
    if call in after && call !in before then 1 else 0
  }

  predicate Settles(call: Call) {
    call.ConnectOk? || call.ConnectFailed?
  }

  /** On a legal trace an upstream attempt is settled once: one success or one failure. */
  lemma ConnectSettledOnce(t: seq<Call>, i: nat, j: nat)
    requires Legal(t) && i < j < |t|
    ensures !(Settles(t[i]) && Settles(t[j]))
  {
    assert AllowedAt(t, j) && t[..j][i] == t[i];
  }
}
