/** How the weighted least-connections rule shares load, for every number of backends, all weights
    and every way of breaking ties. */
module WeightedSharing {

  /** `s` is a healthy backend whose load per unit of weight nobody undercuts. */
  predicate IsLeast(active: seq<nat>, weight: seq<nat>, healthy: seq<bool>, s: nat) {
    && |active| == |weight| == |healthy|
    && s < |active| && healthy[s]
    && forall c | 0 <= c < |active| && healthy[c] :: active[s] * weight[c] <= active[c] * weight[s]
  }

  function Wrap(i: nat, n: nat): (r: nat)
    requires n > 0
    ensures r < n
  {
    i % n
  }

  /** How many places after `start` the rotation meets index i. */
  function Offset(start: nat, i: nat, n: nat): (p: nat)
    requires start < n && i < n
    ensures p < n
  {
    if i >= start then i - start else i + n - start
  }

  lemma WrapOnce(i: nat, n: nat)
    requires i < 2 * n
    ensures Wrap(i, n) == if i < n then i else i - n
  {
  }

  /** The rotation meets every index once: at its offset, and nowhere else. */
  lemma RotationMeets(start: nat, i: nat, n: nat, p: nat)
    requires start < n && i < n && p < n
    ensures Wrap(start + p, n) == i <==> p == Offset(start, i, n)
  {
    hide Wrap;
    WrapOnce(start + p, n);
  }

  /** The scan of acquire() with nobody interfering: the first least-loaded healthy backend in
      rotation order, or none when none is healthy. */
  predicate Chosen(active: seq<nat>, weight: seq<nat>, healthy: seq<bool>, start: nat, s: int) {
    && |active| == |weight| == |healthy| && start < |active|
    && if s < 0 then forall c | 0 <= c < |active| :: !healthy[c]
       else
         && IsLeast(active, weight, healthy, s)
         && forall c | 0 <= c < |active| && healthy[c] && Offset(start, c, |active|) < Offset(start, s, |active|) ::
              active[s] * weight[c] < active[c] * weight[s]
  }

  /** The scan has one possible result, so the rotating start alone decides among equals. */
  lemma ChosenIsUnique(active: seq<nat>, weight: seq<nat>, healthy: seq<bool>, start: nat, s: int, t: int)
    requires Chosen(active, weight, healthy, start, s) && Chosen(active, weight, healthy, start, t)
    ensures s == t || (s < 0 && t < 0)
  {
    if s >= 0 && t >= 0 {
      assert active[s] * weight[t] == active[t] * weight[s];
      assert Offset(start, s, |active|) == Offset(start, t, |active|);
    }
  }

  // Runs without releases from an idle pool.

  function SumIf(xs: seq<nat>, on: seq<bool>): nat
    requires |xs| == |on|
  {
    if xs == [] then 0
    else SumIf(xs[..|xs| - 1], on[..|xs| - 1]) + if on[|xs| - 1] then xs[|xs| - 1] else 0
  }

  function Count(on: seq<bool>): nat {
    if on == [] then 0 else Count(on[..|on| - 1]) + if on[|on| - 1] then 1 else 0
  }

  predicate Indices(picks: seq<nat>, n: nat) {
    forall k | 0 <= k < |picks| :: picks[k] < n
  }

  /** The counts after serving the picks one by one. */
  function After(start: seq<nat>, picks: seq<nat>): (active: seq<nat>)
    requires Indices(picks, |start|)
    ensures |active| == |start|
  {
    if picks == [] then start
    else
      var active := After(start, picks[..|picks| - 1]);
      var s := picks[|picks| - 1];
      active[s := active[s] + 1]
  }

  /** Every pick was a least-loaded one when it was made, however ties were broken. */
  predicate Greedy(start: seq<nat>, weight: seq<nat>, on: seq<bool>, picks: seq<nat>) {
    picks == [] ||
    (&& Indices(picks, |start|)
     && Greedy(start, weight, on, picks[..|picks| - 1])
     && IsLeast(After(start, picks[..|picks| - 1]), weight, on, picks[|picks| - 1]))
  }

  lemma LeastIsOne(active: seq<nat>, weight: seq<nat>, healthy: seq<bool>, s: nat)
    requires IsLeast(active, weight, healthy, s)
    ensures s < |active|
  {
  }

  lemma PickedOneMore(start: seq<nat>, weight: seq<nat>, on: seq<bool>, picks: seq<nat>, s: nat)
    requires Greedy(start, weight, on, picks) && Indices(picks, |start|)
    requires IsLeast(After(start, picks), weight, on, s)
    ensures Indices(picks + [s], |start|) && Greedy(start, weight, on, picks + [s])
    ensures
      var active := After(start, picks);
      After(start, picks + [s]) == active[s := active[s] + 1]
  {
    hide IsLeast;
    var all := picks + [s];
    assert all[..|all| - 1] == picks && all[|all| - 1] == s;
    assert s < |start| by {
      LeastIsOne(After(start, picks), weight, on, s);
    }
  }

  /** Of backends i and j, counted x and y, i is ahead by at most one of its connections. */
  predicate Close(x: nat, wx: nat, y: nat, wy: nat) {
    x * wy <= y * wx + wy
  }

  /** No backend is ahead of another by more than one of its own connections. */
  predicate Balanced(active: seq<nat>, weight: seq<nat>, on: seq<bool>) {
    && |active| == |weight| == |on|
    && forall i, j | 0 <= i < |active| && 0 <= j < |active| && on[i] && on[j] && i != j ::
         Close(active[i], weight[i], active[j], weight[j])
  }

  lemma OneMoreIsClose(x: nat, wx: nat, y: nat, wy: nat)
    requires x * wy <= y * wx
    ensures Close(x + 1, wx, y, wy)
  {
    assert (x + 1) * wy == x * wy + wy;
  }

  lemma CloseToMore(x: nat, wx: nat, y: nat, wy: nat)
    requires Close(x, wx, y, wy)
    ensures Close(x, wx, y + 1, wy)
  {
    assert (y + 1) * wx == y * wx + wx;
  }

  lemma PickKeepsBalance(active: seq<nat>, weight: seq<nat>, on: seq<bool>, s: nat)
    requires Balanced(active, weight, on) && IsLeast(active, weight, on, s)
    ensures Balanced(active[s := active[s] + 1], weight, on)
  {
    hide Close;
    var after := active[s := active[s] + 1];
    forall i, j | 0 <= i < |active| && 0 <= j < |active| && on[i] && on[j] && i != j
      ensures Close(after[i], weight[i], after[j], weight[j])
    {
      if i == s {
        OneMoreIsClose(active[s], weight[s], active[j], weight[j]);
      } else if j == s {
        CloseToMore(active[i], weight[i], active[s], weight[s]);
      }
    }
  }

  lemma {:induction false} SumIfBump(xs: seq<nat>, on: seq<bool>, s: nat)
    requires |xs| == |on| && s < |xs| && on[s]
    ensures SumIf(xs[s := xs[s] + 1], on) == SumIf(xs, on) + 1
  {
    var last := |xs| - 1;
    var bumped := xs[s := xs[s] + 1];
    if s < last {
      SumIfBump(xs[..last], on[..last], s);
      assert bumped[..last] == xs[..last][s := xs[s] + 1];
    } else {
      assert bumped[..last] == xs[..last];
    }
  }

  lemma {:induction false} SumOfZeros(xs: seq<nat>, on: seq<bool>)
    requires |xs| == |on| && forall i | 0 <= i < |xs| :: xs[i] == 0
    ensures SumIf(xs, on) == 0
  {
    if xs != [] {
      SumOfZeros(xs[..|xs| - 1], on[..|xs| - 1]);
    }
  }

  /** From an idle pool, greedy runs stay balanced and count every pick once. */
  lemma {:induction false} GreedyIsBalanced(zeros: seq<nat>, weight: seq<nat>, on: seq<bool>, picks: seq<nat>)
    requires |zeros| == |weight| == |on| && (forall i | 0 <= i < |zeros| :: zeros[i] == 0)
    requires Greedy(zeros, weight, on, picks)
    ensures Indices(picks, |zeros|)
    ensures Balanced(After(zeros, picks), weight, on)
    ensures SumIf(After(zeros, picks), on) == |picks|
  {
    SumOfZeros(zeros, on);
    if picks != [] {
      var rest, s := picks[..|picks| - 1], picks[|picks| - 1];
      assert Greedy(zeros, weight, on, rest) && IsLeast(After(zeros, rest), weight, on, s);
      GreedyIsBalanced(zeros, weight, on, rest);
      OneMorePick(After(zeros, rest), weight, on, s);
      assert After(zeros, picks) == After(zeros, rest)[s := After(zeros, rest)[s] + 1];
    }
    hide After, Greedy, SumIf, IsLeast;
  }

  lemma OneMorePick(active: seq<nat>, weight: seq<nat>, on: seq<bool>, s: nat)
    requires Balanced(active, weight, on) && IsLeast(active, weight, on, s)
    ensures Balanced(active[s := active[s] + 1], weight, on)
    ensures SumIf(active[s := active[s] + 1], on) == SumIf(active, on) + 1
  {
    PickKeepsBalance(active, weight, on, s);
    SumIfBump(active, on, s);
  }

  lemma Distribute(a: int, b: int, c: int)
    ensures a * (b + c) == a * b + a * c && (b + c) * a == b * a + c * a
  {
  }

  lemma StepFromAbove(share: nat, w: nat, x: nat, y: nat, ws: nat, xs: nat, d: int, e: int)
    requires share * ws <= xs * w + ws - d
    requires share * y <= x * w + y - e
    ensures share * (ws + y) <= (xs + x) * w + (ws + y) - d - e
  {
    Distribute(share, ws, y);
    Distribute(w, xs, x);
  }

  lemma StepFromBelow(share: nat, w: nat, x: nat, y: nat, ws: nat, xs: nat, k: int, e: int)
    requires xs * w <= share * ws + k * w
    requires x * w <= share * y + e * w
    ensures (xs + x) * w <= share * (ws + y) + (k + e) * w
  {
    Distribute(share, ws, y);
    Distribute(w, xs, x);
    Distribute(w, k, e);
  }

  lemma {:induction false} SumFromAbove(active: seq<nat>, weight: seq<nat>, on: seq<bool>, i: nat, len: nat)
    requires Balanced(active, weight, on) && i < |active| && on[i] && len <= |active|
    ensures active[i] * SumIf(weight[..len], on[..len])
         <= SumIf(active[..len], on[..len]) * weight[i] + SumIf(weight[..len], on[..len]) -
            if i < len then weight[i] else 0
  {
    if len > 0 {
      var j := len - 1;
      SumFromAbove(active, weight, on, i, j);
      assert weight[..len][..j] == weight[..j] && active[..len][..j] == active[..j] && on[..len][..j] == on[..j];
      if on[j] {
        StepFromAbove(active[i], weight[i], active[j], weight[j], SumIf(weight[..j], on[..j]),
                      SumIf(active[..j], on[..j]), if i < j then weight[i] else 0, if i == j then weight[i] else 0);
      }
    }
  }

  lemma {:induction false} SumFromBelow(active: seq<nat>, weight: seq<nat>, on: seq<bool>, i: nat, len: nat)
    requires Balanced(active, weight, on) && i < |active| && on[i] && len <= |active|
    ensures SumIf(active[..len], on[..len]) * weight[i]
         <= active[i] * SumIf(weight[..len], on[..len]) + (Count(on[..len]) - if i < len then 1 else 0) * weight[i]
  {
    if len > 0 {
      var j := len - 1;
      SumFromBelow(active, weight, on, i, j);
      assert weight[..len][..j] == weight[..j] && active[..len][..j] == active[..j] && on[..len][..j] == on[..j];
      if on[j] {
        StepFromBelow(active[i], weight[i], active[j], weight[j], SumIf(weight[..j], on[..j]),
                      SumIf(active[..j], on[..j]), Count(on[..j]) - if i < j then 1 else 0, if i == j then 0 else 1);
      }
    }
  }

  /** After n acquires without a release from an idle pool, with k healthy backends of total weight W,
      a healthy backend of weight w holds between (n - k + 1) w / W and (n w + W - w) / W of them. */
  lemma SharesAreProportional(zeros: seq<nat>, weight: seq<nat>, on: seq<bool>, picks: seq<nat>, i: nat)
    requires |zeros| == |weight| == |on| && (forall j | 0 <= j < |zeros| :: zeros[j] == 0)
    requires Greedy(zeros, weight, on, picks) && i < |zeros| && on[i]
    ensures Indices(picks, |zeros|)
    ensures (|picks| - Count(on) + 1) * weight[i] <= After(zeros, picks)[i] * SumIf(weight, on)
    ensures After(zeros, picks)[i] * SumIf(weight, on) <= |picks| * weight[i] + SumIf(weight, on) - weight[i]
  {
    hide *;
    GreedyIsBalanced(zeros, weight, on, picks);
    BalanceIsProportional(After(zeros, picks), weight, on, i);
  }

  lemma BalanceIsProportional(active: seq<nat>, weight: seq<nat>, on: seq<bool>, i: nat)
    requires Balanced(active, weight, on) && i < |active| && on[i]
    ensures (SumIf(active, on) - Count(on) + 1) * weight[i] <= active[i] * SumIf(weight, on)
    ensures active[i] * SumIf(weight, on) <= SumIf(active, on) * weight[i] + SumIf(weight, on) - weight[i]
  {
    SumFromAbove(active, weight, on, i, |active|);
    SumFromBelow(active, weight, on, i, |active|);
    hide *;
    assert active[..|active|] == active && weight[..|active|] == weight && on[..|active|] == on;
    Shift(SumIf(active, on), Count(on), weight[i], active[i] * SumIf(weight, on));
  }

  lemma Shift(n: nat, k: nat, w: nat, bound: int)
    requires n * w <= bound + (k - 1) * w
    ensures (n - k + 1) * w <= bound
  {
    Distribute(w, n - k + 1, k - 1);
  }

  lemma {:induction false} NoSlack(active: seq<nat>, weight: seq<nat>, on: seq<bool>, m: nat, i: nat)
    requires |active| == |weight| == |on| && i < |active| && on[i]
    requires forall j | 0 <= j < |active| && on[j] :: active[j] <= m * weight[j]
    requires SumIf(active, on) >= m * SumIf(weight, on)
    ensures active[i] == m * weight[i]
  {
    var last := |active| - 1;
    var xs, ws := SumIf(active[..last], on[..last]), SumIf(weight[..last], on[..last]);
    SumIsBounded(active[..last], weight[..last], on[..last], m);
    if on[last] {
      assert m * (ws + weight[last]) == m * ws + m * weight[last];
    }
    if i < last {
      NoSlack(active[..last], weight[..last], on[..last], m, i);
    }
  }

  lemma {:induction false} SumIsBounded(active: seq<nat>, weight: seq<nat>, on: seq<bool>, m: nat)
    requires |active| == |weight| == |on|
    requires forall j | 0 <= j < |active| && on[j] :: active[j] <= m * weight[j]
    ensures SumIf(active, on) <= m * SumIf(weight, on)
  {
    if active != [] {
      var last := |active| - 1;
      SumIsBounded(active[..last], weight[..last], on[..last], m);
      if on[last] {
        assert m * (SumIf(weight[..last], on[..last]) + weight[last])
          == m * SumIf(weight[..last], on[..last]) + m * weight[last];
      }
    }
  }

  lemma MulLess(a: int, b: int, t: nat)
    requires a * t < b * t
    ensures a < b
  {
    Distribute(t, a, -b);
    assert (a - b) * t < 0;
  }

  lemma AtMostShare(share: nat, total: nat, m: nat, w: nat)
    requires share * total <= (m * total) * w + total - w && w >= 1
    ensures share <= m * w
  {
    assert (m * total) * w == (m * w) * total;
    Distribute(total, m * w, 1);
    MulLess(share, m * w + 1, total);
  }

  /** After a whole number of rounds each healthy backend has exactly its weight per round, whatever
      the ties; the others have nothing. */
  lemma WholeRoundsAreExact(zeros: seq<nat>, weight: seq<nat>, on: seq<bool>, picks: seq<nat>, m: nat, i: nat)
    requires |zeros| == |weight| == |on| && (forall j | 0 <= j < |zeros| :: zeros[j] == 0 && weight[j] >= 1)
    requires Greedy(zeros, weight, on, picks) && |picks| == m * SumIf(weight, on) && i < |zeros|
    ensures Indices(picks, |zeros|)
    ensures After(zeros, picks)[i] == if on[i] then m * weight[i] else 0
  {
    GreedyIsBalanced(zeros, weight, on, picks);
    var active := After(zeros, picks);
    if on[i] {
      forall j | 0 <= j < |active| && on[j] ensures active[j] <= m * weight[j] {
        SharesAreProportional(zeros, weight, on, picks, j);
        AtMostShare(active[j], SumIf(weight, on), m, weight[j]);
      }
      NoSlack(active, weight, on, m, i);
    } else {
      OthersUntouched(zeros, weight, on, picks, i);
    }
  }

  lemma {:induction false} OthersUntouched(zeros: seq<nat>, weight: seq<nat>, on: seq<bool>, picks: seq<nat>, i: nat)
    requires Greedy(zeros, weight, on, picks) && Indices(picks, |zeros|)
    requires i < |zeros| && |zeros| == |on| && !on[i]
    ensures After(zeros, picks)[i] == zeros[i]
  {
    if picks != [] {
      OthersUntouched(zeros, weight, on, picks[..|picks| - 1], i);
    }
  }
}
