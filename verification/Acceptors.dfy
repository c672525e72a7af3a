/** The accept loop: choosing a worker, handing the client over, and the books. */
module Acceptors {
  import opened MetricsCounters
  import opened WeightedSharing

  /** Nobody has fewer sessions, and nobody met before it from the cursor on has as few. */
  predicate LeastBusy(active: seq<nat>, cursor: nat, selected: nat) {
    && selected < |active|
    && (forall j | 0 <= j < |active| :: active[selected] <= active[j])
    && var start := Wrap(cursor, |active|);
       forall j | 0 <= j < |active| && Offset(start, j, |active|) < Offset(start, selected, |active|) ::
         active[selected] < active[j]
  }

  lemma LeastBusyIsUnique(active: seq<nat>, cursor: nat, s: nat, t: nat)
    requires LeastBusy(active, cursor, s) && LeastBusy(active, cursor, t)
    ensures s == t
  {
    assert Offset(Wrap(cursor, |active|), s, |active|) == Offset(Wrap(cursor, |active|), t, |active|);
  }

  /** Each worker's session count is loaded once, in rotation order; `active` holds the answers. */
  method SelectWorker(active: seq<nat>, cursor: nat) returns (selected: nat)
    requires active != []
    ensures LeastBusy(active, cursor, selected)
  {
    hide Wrap;
    var n := |active|;
    ghost var start := Wrap(cursor, n);
    selected := Wrap(cursor, n);
    var minimum := active[selected];
    for i := 1 to n
      invariant selected < n && minimum == active[selected] && Offset(start, selected, n) < i
      invariant forall j | 0 <= j < n && Offset(start, j, n) < i ::
                  minimum <= active[j] && (Offset(start, j, n) < Offset(start, selected, n) ==> minimum < active[j])
    {
      var index := Wrap(cursor + i, n);
      WrapTwice(cursor, i, n);
      RotationMeets(start, index, n, i);
      if active[index] < minimum {
        selected, minimum := index, active[index];
      }
    }
  }

  lemma WrapTwice(cursor: nat, i: nat, n: nat)
    requires n > 0
    ensures Wrap(Wrap(cursor, n) + i, n) == Wrap(cursor + i, n)
  {
    var q := cursor / n;
    assert cursor == n * q + cursor % n;
    Remainder(q, n, cursor % n + i);
  }

  lemma Remainder(q: nat, n: nat, r: nat)
    requires n > 0
    ensures (n * q + r) % n == r % n
  {
    var m := n * q + r;
    var d: int := q + r / n - m / n;
    assert n * d == n * q + n * (r / n) - n * (m / n) == m % n - r % n;
    Multiples(n, d);
    assert d == 0;
  }

  lemma Multiples(n: int, d: int)
    requires n >= 0
    ensures d >= 1 ==> n * d >= n
    ensures d <= -1 ==> n * d <= -n
  {
  }

  /** Among equally busy workers the cursor decides: clients go round in turn. */
  lemma EqualWorkersTakeTurns(active: seq<nat>, cursor: nat, selected: nat)
    requires LeastBusy(active, cursor, selected) && forall j | 0 <= j < |active| :: active[j] == active[0]
    ensures selected == Wrap(cursor, |active|)
  {
    assert Offset(Wrap(cursor, |active|), Wrap(cursor, |active|), |active|) == 0;
  }

  /** What accept4 and the calls after it answer for one turn of the inner loop. */
  datatype Answer =
    | Client(fd: int, configured: bool, loads: seq<nat>, taken: bool)
    | WouldBlock
    | Interrupted
    | Failed

  predicate EndsBurst(a: Answer) {
    a.WouldBlock? || a.Failed?
  }

  /** The clients one readiness event brings: everything accepted before accept4 has no more. */
  function Burst(answers: seq<Answer>): seq<Answer> {
    if answers == [] || EndsBurst(answers[0]) then []
    else if answers[0].Interrupted? then Burst(answers[1..])
    else [answers[0]] + Burst(answers[1..])
  }

  /** The clients among some answers. */
  function ClientsOf(answers: seq<Answer>): seq<Answer> {
    if answers == [] then []
    else (if answers[0].Client? then [answers[0]] else []) + ClientsOf(answers[1..])
  }

  /** Interruptions are passed over; the first other failure ends the burst, and everything before it
      has been taken. */
  lemma {:induction false} BurstTakesEveryClient(answers: seq<Answer>, rest: seq<Answer>)
    requires forall a | a in answers :: a.Client? || a.Interrupted?
    requires rest == [] || rest[0].WouldBlock? || rest[0].Failed?
    ensures Burst(answers + rest) == ClientsOf(answers)
  {
    if answers == [] {
      assert answers + rest == rest;
    } else {
      assert (answers + rest)[0] == answers[0] && (answers + rest)[1..] == answers[1..] + rest;
      BurstTakesEveryClient(answers[1..], rest);
    }
  }

  /** A client on its way to the worker chosen for these loads from this cursor. */
  datatype Request = Request(fd: int, loads: seq<nat>, cursor: nat)

  /** The clients that end up with workers, in order; every configured one moves the cursor. */
  function HandedOver(answers: seq<Answer>, cursor: nat): seq<Request> {
    if answers == [] then []
    else if !answers[0].Client? || !answers[0].configured then HandedOver(answers[1..], cursor)
    else
      (if answers[0].taken then [Request(answers[0].fd, answers[0].loads, cursor)] else [])
        + HandedOver(answers[1..], cursor + 1)
  }

  function Configured(answers: seq<Answer>): nat {
    if answers == [] then 0
    else (if answers[0].Client? && answers[0].configured then 1 else 0) + Configured(answers[1..])
  }

  /** The burst so far, `past`, and what is left of it from answer i on. */
  predicate Split(answers: seq<Answer>, past: seq<Answer>, i: nat)
    requires i <= |answers|
  {
    Burst(answers) == past + Burst(answers[i..])
  }

  lemma SplitStep(answers: seq<Answer>, past: seq<Answer>, i: nat)
    requires i < |answers| && Split(answers, past, i)
    ensures
      var a := answers[i];
      && (EndsBurst(a) ==> Burst(answers) == past)
      && (a.Interrupted? ==> Split(answers, past, i + 1))
      && (a.Client? ==> Split(answers, past + [a], i + 1))
  {
    assert answers[i..][0] == answers[i] && answers[i..][1..] == answers[i + 1..];
  }

  lemma SplitEnds(answers: seq<Answer>, past: seq<Answer>)
    requires Split(answers, past, |answers|)
    ensures Burst(answers) == past
  {
    assert answers[|answers|..] == [];
  }

  lemma {:induction false} HandedOverSnoc(past: seq<Answer>, a: Answer, cursor: nat)
    requires a.Client?
    ensures Configured(past + [a]) == Configured(past) + if a.configured then 1 else 0
    ensures HandedOver(past + [a], cursor)
         == HandedOver(past, cursor) +
            if a.configured && a.taken then [Request(a.fd, a.loads, cursor + Configured(past))] else []
  {
    if past != [] {
      assert (past + [a])[1..] == past[1..] + [a];
      HandedOverSnoc(past[1..], a, if past[0].Client? && past[0].configured then cursor + 1 else cursor);
    }
  }

  class Acceptor {
    const workers: nat
    const metrics: Metrics
    var dispatchCursor: nat
    var held: set<int>            // accepted, neither closed nor handed over
    ghost var handed: seq<Request>   // handed over to workers
    ghost var chosen: seq<nat>       // the worker each went to

    constructor (workers: nat, metrics: Metrics)
      ensures this.workers == workers && this.metrics == metrics && dispatchCursor == 0 && held == {} && handed == []
      ensures WellSent()
    {
      this.workers, this.metrics, dispatchCursor, held, handed, chosen := workers, metrics, 0, {}, [], [];
    }

    /** Every client went to the least busy worker. */
    ghost predicate WellSent()
      reads this
    {
      |chosen| == |handed| && forall k | 0 <= k < |handed| :: LeastBusy(handed[k].loads, handed[k].cursor, chosen[k])
    }

    /** One readiness event of the listening socket. Every accepted descriptor is either handed to a
        worker or closed, and counted accordingly. */
    method AcceptBurst(answers: seq<Answer>)
      requires workers > 0 && forall a | a in answers && a.Client? :: |a.loads| == workers
      requires held == {} && WellSent()
      modifies this, metrics`accepted, metrics`rejected
      ensures held == {} && WellSent()
      ensures handed == old(handed) + HandedOver(Burst(answers), old(dispatchCursor))
      ensures metrics.accepted == old(metrics.accepted) + |Burst(answers)|
      ensures metrics.accepted - old(metrics.accepted)
                == metrics.rejected - old(metrics.rejected) + |handed| - |old(handed)|
      ensures dispatchCursor == old(dispatchCursor) + Configured(Burst(answers))
    {
      ghost var past, cursor := [], dispatchCursor;
      var i := 0;
      assert Split(answers, past, 0) by {
        assert answers[0..] == answers;
      }
      assert HandedOver([], cursor) == [] && Configured([]) == 0;
      hide LeastBusy, Burst, HandedOver, Configured, Split;
      while i < |answers|
        invariant 0 <= i <= |answers| && held == {} && WellSent()
        invariant Split(answers, past, i)
        invariant handed == old(handed) + HandedOver(past, cursor) && dispatchCursor == cursor + Configured(past)
        invariant metrics.accepted == old(metrics.accepted) + |past|
        invariant metrics.accepted - old(metrics.accepted)
                    == metrics.rejected - old(metrics.rejected) + |handed| - |old(handed)|
      {
        var answer := answers[i];
        SplitStep(answers, past, i);
        i := i + 1;
        match answer
        case Client(_, _, _, _) =>
          HandedOverSnoc(past, answer, cursor);
          past := past + [answer];
          Dispatch(answer);
        case Interrupted =>
        case _ => return;
      }
      SplitEnds(answers, past);
    }

    /** One accepted client. */
    method Dispatch(client: Answer)
      requires client.Client? && workers > 0 && |client.loads| == workers && held == {} && WellSent()
      modifies this, metrics`accepted, metrics`rejected
      ensures held == {} && WellSent()
      ensures metrics.accepted == old(metrics.accepted) + 1
      ensures handed == old(handed) +
                if client.configured && client.taken then [Request(client.fd, client.loads, old(dispatchCursor))]
                else []
      ensures metrics.rejected == old(metrics.rejected) + if client.configured && client.taken then 0 else 1
      ensures dispatchCursor == old(dispatchCursor) + if client.configured then 1 else 0
    {
      metrics.OnAccepted();
      held := held + {client.fd};
      if !client.configured {
        Close(client.fd);
        metrics.OnRejected();
        return;
      }
      var worker := SelectWorker(client.loads, dispatchCursor);
      dispatchCursor := dispatchCursor + 1;
      if client.taken {
        held := held - {client.fd};
        handed := handed + [Request(client.fd, client.loads, dispatchCursor - 1)];
        chosen := chosen + [worker];
      } else {
        Close(client.fd);
        metrics.OnRejected();
      }
    }

    method Close(fd: int)
      requires fd in held
      modifies this`held
      ensures held == old(held) - {fd}
    {
      held := held - {fd};
    }
  }
}
