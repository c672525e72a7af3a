/** Picking a backend under the selection lock, while other threads keep releasing connections and
    the health checker keeps changing its mind. */
module BackendPools {
  import opened Backends
  import opened WeightedSharing

  const SIZE_RANGE: nat := 0x1_0000_0000_0000_0000

  /** What other threads do while the selection lock is held: whose health stays as it is, whose load
      stays as it is, and what each health flag says when the scan looks at it. */
  datatype Meanwhile = Meanwhile(steady: set<nat>, quiet: set<nat>, looks: seq<bool>)

  class BackendPool {
    const backends: seq<Backend>
    var tieBreaker: nat
    ghost const nodes: set<Backend>   // the elements of backends

    constructor (weights: seq<nat>)
      requires weights != [] && forall w | w in weights :: w >= 1
      ensures Valid() && fresh(nodes) && Weights() == weights && tieBreaker == 0
      ensures forall b | b in backends ::
                b.healthy && b.activeConnections == b.totalConnections == b.failedConnections == 0
    {
      var made: seq<Backend> := [];
      while |made| < |weights|
        invariant |made| <= |weights|
        invariant forall i | 0 <= i < |made| :: fresh(made[i]) && made[i].weight == weights[i] && made[i].healthy
        invariant forall i | 0 <= i < |made| ::
                    made[i].activeConnections == made[i].totalConnections == made[i].failedConnections == 0
        invariant forall i, j | 0 <= i < j < |made| :: made[i] != made[j]
      {
        var b := new Backend(weights[|made|]);
        made := made + [b];
      }
      assert forall i | 0 <= i < |weights| :: weights[i] in weights;
      assert forall b | b in made :: b.weight >= 1;
      backends, tieBreaker, nodes := made, 0, set b | b in made;
    }

    /** The configuration loader guarantees positive weights; an empty pool is refused. */
    static method Create(weights: seq<nat>) returns (pool: BackendPool?)
      requires forall w | w in weights :: w >= 1
      ensures pool == null <==> weights == []
      ensures pool != null ==> fresh(pool) && pool.Valid() && pool.Weights() == weights && pool.tieBreaker == 0
      ensures pool != null ==> forall b | b in pool.backends ::
                fresh(b) && b.healthy && b.activeConnections == b.totalConnections == b.failedConnections == 0
    {
      if weights == [] {
        return null;
      }
      pool := new BackendPool(weights);
    }

    ghost predicate Valid() {
      && backends != [] && (forall b | b in backends :: b in nodes)
      && (forall b | b in backends :: b.weight >= 1)
      && forall i, j | 0 <= i < j < |backends| :: backends[i] != backends[j]
    }

    ghost function Weights(): (weights: seq<nat>)
      ensures |weights| == |backends| && forall i | 0 <= i < |backends| :: weights[i] == backends[i].weight
    {
      seq(|backends|, i requires 0 <= i < |backends| => backends[i].weight)
    }

    ghost function Active(): (active: seq<nat>)
      requires Valid()
      reads nodes
      ensures |active| == |backends| && forall i | 0 <= i < |backends| :: active[i] == backends[i].activeConnections
    {
      seq(|backends|, i requires 0 <= i < |backends| reads nodes => backends[i].activeConnections)
    }

    ghost function Healthy(): (healthy: seq<bool>)
      requires Valid()
      reads nodes
      ensures |healthy| == |backends| && forall i | 0 <= i < |backends| :: healthy[i] == backends[i].healthy
    {
      seq(|backends|, i requires 0 <= i < |backends| reads nodes => backends[i].healthy)
    }

    method HasHealthyBackend() returns (found: bool)
      ensures found <==> exists b :: b in backends && b.healthy
    {
      for i := 0 to |backends|
        invariant forall k | 0 <= k < i :: !backends[k].healthy
      {
        if backends[i].healthy {
          return true;
        }
      }
      return false;
    }

    /** What other threads may do while the selection lock is held: change the health of any backend
        that is not steady, and release connections of any that is not quiet. Nobody else can
        acquire. */
    method OtherThreads(m: Meanwhile)
      requires Valid()
      modifies nodes`activeConnections, nodes`healthy
      ensures Below(Active(), old(Active())) && Kept(m, old(Active()), Active(), old(Healthy()), Healthy())
    {
      hide Active, Healthy, Weights;
      for i := 0 to |backends|
        invariant Below(Active(), old(Active())) && Kept(m, old(Active()), Active(), old(Healthy()), Healthy())
      {
        if i !in m.quiet {
          var left: nat :| left <= backends[i].activeConnections;
          backends[i].activeConnections := left;
        }
        if i !in m.steady {
          backends[i].healthy := *;
        }
      }
    }

    /** The same up to the moment when the scan looks at the health of the candidate. */
    method OtherThreadsUntilLook(candidate: nat, m: Meanwhile, ghost health: seq<bool>)
      requires Valid() && candidate < |backends| && Plausible(m, health)
      requires Kept(m, Active(), Active(), health, Healthy())
      modifies nodes`activeConnections, nodes`healthy
      ensures Below(Active(), old(Active())) && Kept(m, old(Active()), Active(), old(Healthy()), Healthy())
      ensures backends[candidate].healthy == m.looks[candidate]
    {
      hide Active, Weights;
      OtherThreads(m);
      if candidate !in m.steady {
        backends[candidate].healthy := m.looks[candidate];
      }
    }

    /** Does the candidate undercut the leader? The two counters are loaded at different moments. */
    method Undercuts(candidate: nat, leader: nat, m: Meanwhile) returns (wins: bool, left: nat)
      requires Valid() && candidate < |backends| && leader < |backends|
      modifies nodes`activeConnections, nodes`healthy
      ensures Below(Active(), old(Active())) && Kept(m, old(Active()), Active(), old(Healthy()), Healthy())
      ensures Active()[candidate] <= left <= old(Active())[candidate]
      ensures wins == Less(left, Weights()[candidate], Active()[leader], Weights()[leader])
    {
      hide Active, Healthy, Weights, Less;
      OtherThreads(m);
      left := backends[candidate].activeConnections;
      OtherThreads(m);
      var right := backends[leader].activeConnections;
      wins := Less(left, backends[candidate].weight, right, backends[leader].weight);
    }

    /** The scan of acquire(), with other threads acting before each load. Whatever they do, the
        backend picked is no more loaded per unit of weight, at the moment it is charged, than any
        backend that was healthy when the scan looked at it was when the lock was taken; the pick is
        one of these, and there is none exactly if none of them was healthy then. If nobody
        interferes, the pick is the first least-loaded one in rotation order. */
    method Acquire(m: Meanwhile) returns (lease: BackendLease, selected: int, ghost charged: seq<nat>)
      requires Valid() && tieBreaker < SIZE_RANGE && Plausible(m, Healthy())
      modifies this`tieBreaker, nodes`activeConnections, nodes`healthy
      ensures tieBreaker == Wrap(old(tieBreaker) + 1, SIZE_RANGE)
      ensures -1 <= selected < |backends| && (selected < 0 <==> Seen(m.looks) == {})
      ensures Below(charged, old(Active())) && Active() == Bumped(charged, selected)
      ensures Kept(m, old(Active()), charged, old(Healthy()), Healthy())
      ensures selected >= 0 ==> Leads(old(Active()), charged, Weights(), Seen(m.looks), selected)
      ensures fresh(lease) && lease.backend == if selected < 0 then null else backends[selected]
      ensures Alone(m, |backends|) ==>
                Chosen(old(Active()), Weights(), old(Healthy()), Wrap(old(tieBreaker), |backends|), selected)
    {
      hide *;
      AllAreNodes();
      var start := Wrap(tieBreaker, |backends|);
      tieBreaker := Wrap(tieBreaker + 1, SIZE_RANGE);
      selected := Scan(start, m);
      ghost var active, healthy := Active(), Healthy();
      OtherThreads(m);
      StillLeads(old(Active()), active, Active(), Weights(), Seen(m.looks), selected);
      KeptOn(m, old(Active()), active, Active(), old(Healthy()), healthy, Healthy());
      charged := Active();
      lease := Charge(selected);
    }

    lemma AllAreNodes()
      requires Valid()
      ensures |backends| > 0 && forall b | b in backends :: b in nodes
    {
    }

    /** The loop over all candidates from the rotating start. */
    method Scan(start: nat, m: Meanwhile) returns (picked: int)
      requires Valid() && start < |backends| && Plausible(m, Healthy())
      modifies nodes`activeConnections, nodes`healthy
      ensures -1 <= picked < |backends| && (picked < 0 <==> Seen(m.looks) == {})
      ensures Below(Active(), old(Active())) && Kept(m, old(Active()), Active(), old(Healthy()), Healthy())
      ensures picked >= 0 ==> Leads(old(Active()), Active(), Weights(), Seen(m.looks), picked)
      ensures Alone(m, |backends|) ==> Chosen(old(Active()), Weights(), old(Healthy()), start, picked)
    {
      var n := |backends|;
      picked := -1;
      ghost var locked, weights, health := Active(), Weights(), Healthy();
      ScanBegins(m, locked, weights, health, start);
      hide *;
      var offset := 0;
      while offset < n
        invariant 0 <= offset <= n
        invariant Underway(m, locked, weights, health, start, offset, picked, Active(), Healthy())
      {
        picked := Turn(offset, picked, start, m, locked, health);
        offset := offset + 1;
      }
      ScanEnds(m, locked, weights, health, start, picked, Active(), Healthy());
    }

    method Turn(offset: nat, leader: int, start: nat, m: Meanwhile, ghost locked: seq<nat>, ghost health: seq<bool>)
        returns (next: int)
      requires Valid() && offset < |backends|
      requires Underway(m, locked, Weights(), health, start, offset, leader, Active(), Healthy())
      modifies nodes`activeConnections, nodes`healthy
      ensures Underway(m, locked, Weights(), health, start, offset + 1, next, Active(), Healthy())
    {
      assert forall i | 0 <= i < |backends| :: Weights()[i] >= 1;
      hide Leads, Scanned, Below, Kept, Offset, SeenUpTo, Alone, Lighter, Wrap, Active, Weights, Healthy, Plausible;
      next := Consider(Wrap(start + offset, |backends|), leader, m, locked, health, SeenUpTo(m.looks, start, offset));
      ScanAdvances(m, locked, Weights(), health, start, offset, leader, next);
    }

    /** The lease on the selected backend, if any. */
    method Charge(selected: int) returns (lease: BackendLease)
      requires Valid() && -1 <= selected < |backends|
      modifies (if selected < 0 then {} else {backends[selected]})`activeConnections
      ensures fresh(lease) && lease.backend == if selected < 0 then null else backends[selected]
      ensures Active() == Bumped(old(Active()), selected)
      ensures Healthy() == old(Healthy())
    {
      lease := new BackendLease(if selected < 0 then null else backends[selected]);
    }

    /** One turn of the scan: the candidate is passed over, or becomes the leader, or is compared. */
    method Consider(candidate: nat, leader: int, m: Meanwhile, ghost locked: seq<nat>, ghost health: seq<bool>,
                    ghost seen: set<nat>)
        returns (next: int)
      requires Valid() && candidate < |backends| && -1 <= leader < |backends| && (leader < 0 <==> seen == {})
      requires 0 <= leader ==> Leads(locked, Active(), Weights(), seen, leader)
      requires Below(Active(), locked) && Kept(m, locked, Active(), health, Healthy()) && Plausible(m, health)
      modifies nodes`activeConnections, nodes`healthy
      ensures Below(Active(), locked) && Kept(m, locked, Active(), health, Healthy())
      ensures
        var seen' := if m.looks[candidate] then seen + {candidate} else seen;
        && -1 <= next < |backends| && (next < 0 <==> seen' == {})
        && (0 <= next ==> Leads(locked, Active(), Weights(), seen', next))
      ensures Alone(m, |backends|) ==>
                next ==
                  if health[candidate] && (leader < 0 || Lighter(locked, Weights(), candidate, leader)) then candidate
                  else leader
    {
      hide Leads, Below, Active, Healthy, Weights, Less;
      ghost var active := Active();
      OtherThreadsUntilLook(candidate, m, health);
      StillLeads(locked, active, Active(), Weights(), seen, leader);
      if !backends[candidate].healthy {
        return leader;
      }
      if leader < 0 {
        LeadsFirst(locked, Active(), Weights(), candidate);
        assert seen + {candidate} == {candidate};
        return candidate;
      }
      active := Active();
      var wins, left := Undercuts(candidate, leader, m);
      StillLeads(locked, active, Active(), Weights(), seen, leader);
      LeadsCompared(locked, Active(), Weights(), seen, leader, candidate, left);
      next := if wins then candidate else leader;
    }
  }

  /** An idle pool that nobody disturbs serves `n` clients: if they make `rounds` whole rounds, every
      healthy backend gets exactly its weight per round, wherever the rotation stands. */
  method ServeFromIdle(pool: BackendPool, n: nat, ghost rounds: nat) returns (picks: seq<nat>)
    requires pool.Valid() && pool.tieBreaker < SIZE_RANGE
    requires (forall b | b in pool.backends :: b.activeConnections == 0) && exists b | b in pool.backends :: b.healthy
    modifies pool`tieBreaker, pool.nodes`activeConnections, pool.nodes`healthy
    ensures |picks| == n && Indices(picks, |pool.backends|)
    ensures pool.Healthy() == old(pool.Healthy())
    ensures Greedy(old(pool.Active()), pool.Weights(), pool.Healthy(), picks)
    ensures pool.Active() == After(old(pool.Active()), picks)
    ensures ExactAfter(n, rounds, pool.Active(), pool.Weights(), pool.Healthy())
  {
    ghost var zeros, weights, health := pool.Active(), pool.Weights(), pool.Healthy();
    SomeoneIsUp(pool);
    assert forall i | 0 <= i < |zeros| :: zeros[i] == 0 && weights[i] >= 1;
    hide *;
    picks := [];
    NobodyServed(zeros, weights, health);
    while |picks| < n
      invariant |picks| <= n && Indices(picks, |pool.backends|)
      invariant pool.tieBreaker < SIZE_RANGE && pool.Healthy() == health
      invariant Greedy(zeros, weights, health, picks) && pool.Active() == After(zeros, picks)
    {
      var lease, selected := ServeOne(pool, zeros, health, picks);
      picks := picks + [selected];
    }
    SharedOut(zeros, weights, health, picks, rounds);
  }

  method ServeOne(pool: BackendPool, ghost zeros: seq<nat>, ghost health: seq<bool>, ghost picks: seq<nat>)
      returns (lease: BackendLease, selected: nat)
    requires pool.Valid() && pool.tieBreaker < SIZE_RANGE && pool.Healthy() == health
    requires exists i | 0 <= i < |health| :: health[i]
    requires Greedy(zeros, pool.Weights(), health, picks) && Indices(picks, |zeros|)
    requires pool.Active() == After(zeros, picks)
    modifies pool`tieBreaker, pool.nodes`activeConnections, pool.nodes`healthy
    ensures selected < |pool.backends| && lease.backend == pool.backends[selected]
    ensures pool.tieBreaker < SIZE_RANGE && pool.Healthy() == health && Indices(picks + [selected], |zeros|)
    ensures Greedy(zeros, pool.Weights(), health, picks + [selected])
    ensures pool.Active() == After(zeros, picks + [selected])
  {
    hide *;
    var found;
    ghost var charged;
    var nobody := Nobody(pool);
    lease, found, charged := pool.Acquire(nobody);
    NothingMoved(nobody, old(pool.Active()), charged, old(pool.Healthy()), pool.Healthy());
    OneMore(zeros, pool.Weights(), health, charged, picks, Wrap(old(pool.tieBreaker), |pool.backends|), found);
    selected := found;
  }

  /** If n connections make whole rounds, every healthy backend has its weight times the rounds. */
  predicate ExactAfter(n: nat, rounds: nat, active: seq<nat>, weight: seq<nat>, healthy: seq<bool>)
    requires |active| == |weight| == |healthy|
  {
    n == rounds * SumIf(weight, healthy) ==>
      forall i | 0 <= i < |active| :: active[i] == if healthy[i] then rounds * weight[i] else 0
  }

  function All(n: nat): (all: set<nat>)
    ensures forall i | 0 <= i < n :: i in all
  {
    if n == 0 then {} else All(n - 1) + {n - 1}
  }

  /** Nobody interferes. */
  method Nobody(pool: BackendPool) returns (m: Meanwhile)
    requires pool.Valid()
    ensures Alone(m, |pool.backends|) && Plausible(m, pool.Healthy())
  {
    var looks: seq<bool> := [];
    for i := 0 to |pool.backends|
      invariant |looks| == i && forall k | 0 <= k < i :: looks[k] == pool.backends[k].healthy
    {
      looks := looks + [pool.backends[i].healthy];
    }
    m := Meanwhile(All(|looks|), All(|looks|), looks);
  }

  lemma SomeoneIsUp(pool: BackendPool)
    requires pool.Valid() && exists b | b in pool.backends :: b.healthy
    ensures exists i | 0 <= i < |pool.backends| :: pool.Healthy()[i]
  {
    var b :| b in pool.backends && b.healthy;
    var i :| 0 <= i < |pool.backends| && pool.backends[i] == b;
    assert pool.Healthy()[i];
  }

  lemma NobodyServed(zeros: seq<nat>, weight: seq<nat>, healthy: seq<bool>)
    ensures Greedy(zeros, weight, healthy, []) && Indices([], |zeros|) && After(zeros, []) == zeros
  {
  }

  lemma OneMore(zeros: seq<nat>, weight: seq<nat>, healthy: seq<bool>, active: seq<nat>, picks: seq<nat>, start: nat,
                s: int)
    requires Greedy(zeros, weight, healthy, picks) && Indices(picks, |zeros|) && active == After(zeros, picks)
    requires Chosen(active, weight, healthy, start, s) && exists i | 0 <= i < |healthy| :: healthy[i]
    ensures s >= 0 && Indices(picks + [s], |zeros|)
    ensures Greedy(zeros, weight, healthy, picks + [s])
    ensures After(zeros, picks + [s]) == Bumped(active, s)
  {
    hide IsLeast, Greedy, After, Offset;
    assert s >= 0;
    PickedOneMore(zeros, weight, healthy, picks, s);
  }

  lemma SharedOut(zeros: seq<nat>, weight: seq<nat>, healthy: seq<bool>, picks: seq<nat>, rounds: nat)
    requires |zeros| == |weight| == |healthy| && forall i | 0 <= i < |zeros| :: zeros[i] == 0 && weight[i] >= 1
    requires Greedy(zeros, weight, healthy, picks) && Indices(picks, |zeros|)
    ensures ExactAfter(|picks|, rounds, After(zeros, picks), weight, healthy)
  {
    forall i | 0 <= i < |zeros| && |picks| == rounds * SumIf(weight, healthy)
      ensures After(zeros, picks)[i] == if healthy[i] then rounds * weight[i] else 0
    {
      WholeRoundsAreExact(zeros, weight, healthy, picks, rounds, i);
    }
  }

  /** The counts after one more connection to `selected`, if any. */
  function Bumped(active: seq<nat>, selected: int): seq<nat>
    requires selected < |active|
  {
    if selected < 0 then active else active[selected := active[selected] + 1]
  }

  predicate Below(active: seq<nat>, bound: seq<nat>) {
    |active| == |bound| && forall i | 0 <= i < |active| :: active[i] <= bound[i]
  }

  predicate Kept(m: Meanwhile, active: seq<nat>, active': seq<nat>, healthy: seq<bool>, healthy': seq<bool>) {
    && |active| == |active'| == |healthy| == |healthy'|
    && (forall i | 0 <= i < |active| && i in m.quiet :: active[i] == active'[i])
    && (forall i | 0 <= i < |active| && i in m.steady :: healthy[i] == healthy'[i])
  }

  lemma KeptOn(m: Meanwhile, a: seq<nat>, b: seq<nat>, c: seq<nat>, x: seq<bool>, y: seq<bool>, z: seq<bool>)
    requires Kept(m, a, b, x, y) && Kept(m, b, c, y, z)
    ensures Kept(m, a, c, x, z)
  {
  }

  /** A steady flag says when it is looked at what it said when the lock was taken. */
  predicate Plausible(m: Meanwhile, health: seq<bool>) {
    |m.looks| == |health| && forall i | 0 <= i < |health| && i in m.steady :: m.looks[i] == health[i]
  }

  predicate Alone(m: Meanwhile, n: nat) {
    forall i | 0 <= i < n :: i in m.steady && i in m.quiet
  }

  /** The backends that are healthy when the scan looks at them. */
  ghost function Seen(looks: seq<bool>): set<nat> {
    set c: nat | c < |looks| && looks[c]
  }

  /** Those among the first `offset` ones in rotation order. */
  ghost function SeenUpTo(looks: seq<bool>, start: nat, offset: nat): set<nat>
    requires start < |looks|
  {
    set c: nat | c < |looks| && Offset(start, c, |looks|) < offset && looks[c]
  }

  lemma SeenStep(looks: seq<bool>, start: nat, c: nat)
    requires start < |looks| && c < |looks|
    ensures
      var offset := Offset(start, c, |looks|);
      var seen := SeenUpTo(looks, start, offset);
      SeenUpTo(looks, start, offset + 1) == if looks[c] then seen + {c} else seen
  {
  }

  /** All that the scan knows after `offset` backends. */
  ghost predicate Underway(m: Meanwhile, locked: seq<nat>, weight: seq<nat>, health: seq<bool>, start: nat, offset: nat,
                           s: int, active: seq<nat>, healthy: seq<bool>) {
    && |locked| == |weight| == |health| && start < |locked| && offset <= |locked| && Plausible(m, health)
    && var seen := SeenUpTo(m.looks, start, offset);
       && -1 <= s < |locked| && (s < 0 <==> seen == {})
       && (0 <= s ==> Leads(locked, active, weight, seen, s))
       && Below(active, locked) && Kept(m, locked, active, health, healthy)
       && (Alone(m, |locked|) ==> Scanned(locked, weight, health, start, offset, s))
  }

  lemma ScanBegins(m: Meanwhile, active: seq<nat>, weight: seq<nat>, health: seq<bool>, start: nat)
    requires |active| == |weight| == |health| && start < |active| && Plausible(m, health)
    ensures Underway(m, active, weight, health, start, 0, -1, active, health)
  {
  }

  lemma ScanEnds(m: Meanwhile, locked: seq<nat>, weight: seq<nat>, health: seq<bool>, start: nat, s: int,
                 active: seq<nat>, healthy: seq<bool>)
    requires Underway(m, locked, weight, health, start, |locked|, s, active, healthy)
    ensures Below(active, locked) && Kept(m, locked, active, health, healthy)
    ensures -1 <= s < |locked| && (s < 0 <==> Seen(m.looks) == {})
    ensures 0 <= s ==> Leads(locked, active, weight, Seen(m.looks), s)
    ensures Alone(m, |locked|) ==> Chosen(locked, weight, health, start, s)
  {
    assert SeenUpTo(m.looks, start, |locked|) == Seen(m.looks);
    if Alone(m, |locked|) {
      FullScanChooses(locked, weight, health, start, s);
    }
  }

  lemma NothingMoved(m: Meanwhile, active: seq<nat>, active': seq<nat>, healthy: seq<bool>, healthy': seq<bool>)
    requires Kept(m, active, active', healthy, healthy') && Alone(m, |active|)
    ensures active' == active && healthy' == healthy
  {
  }

  /** `s` was itself seen healthy, and is no more loaded now than any backend in `seen` was when the
      lock was taken. */
  ghost predicate Leads(locked: seq<nat>, active: seq<nat>, weight: seq<nat>, seen: set<nat>, s: nat) {
    && |locked| == |active| == |weight| && s < |active| && s in seen
    && forall c | c in seen :: c < |active| && active[s] * weight[c] <= locked[c] * weight[s]
  }

  lemma StillLeads(locked: seq<nat>, active: seq<nat>, later: seq<nat>, weight: seq<nat>, seen: set<nat>, s: int)
    requires 0 <= s ==> Leads(locked, active, weight, seen, s)
    requires Below(later, active) && Below(active, locked)
    ensures Below(later, locked)
    ensures 0 <= s ==> Leads(locked, later, weight, seen, s)
  {
    if s >= 0 {
      forall c | c in seen ensures later[s] * weight[c] <= locked[c] * weight[s] {
        MulMonotone(later[s], active[s], weight[c]);
      }
    }
  }

  lemma LeadsFirst(locked: seq<nat>, active: seq<nat>, weight: seq<nat>, s: nat)
    requires |locked| == |weight| && Below(active, locked) && s < |active|
    ensures Leads(locked, active, weight, {s}, s)
  {
    MulMonotone(active[s], locked[s], weight[s]);
  }

  /** The two loads of a comparison are taken at different moments: `left` from the candidate c,
      `active` when the leader is loaded. */
  lemma LeadsCompared(locked: seq<nat>, active: seq<nat>, weight: seq<nat>, seen: set<nat>, s: nat, c: nat, left: nat)
    requires Leads(locked, active, weight, seen, s) && c < |active| && weight[s] >= 1
    requires active[c] <= left <= locked[c]
    ensures Leads(locked, active, weight, seen + {c}, if Less(left, weight[c], active[s], weight[s]) then c else s)
  {
    if Less(left, weight[c], active[s], weight[s]) {
      forall d | d in seen + {c} ensures active[c] * weight[d] <= locked[d] * weight[c] {
        if d in seen {
          Transitive(left, weight[s], active[s], weight[c], locked[d], weight[d]);
          MulMonotone(active[c], left, weight[d]);
        } else {
          MulMonotone(active[c], locked[c], weight[c]);
        }
      }
    } else {
      MulMonotone(left, locked[c], weight[s]);
    }
  }

  lemma MulMonotone(a: nat, b: nat, w: nat)
    requires a <= b
    ensures a * w <= b * w
  {
  }

  lemma MulCancel(a: nat, b: nat, w: nat)
    requires a * w <= b * w && w >= 1
    ensures a <= b
  {
    if a > b {
      MulMonotone(1, a - b, w);
    }
  }

  /** x/wx <= y/wy <= z/wz, written without division. */
  lemma Transitive(x: nat, wy: nat, y: nat, wx: nat, z: nat, wz: nat)
    requires x * wy <= y * wx && y * wz <= z * wy && wy >= 1
    ensures x * wz <= z * wx
  {
    MulMonotone(x * wy, y * wx, wz);
    MulMonotone(y * wz, z * wy, wx);
    assert (x * wz) * wy == (x * wy) * wz;
    assert (y * wx) * wz == (y * wz) * wx;
    assert (z * wx) * wy == (z * wy) * wx;
    MulCancel(x * wz, z * wx, wy);
  }

  /** What the scan of an undisturbed pool knows after `offset` backends. */
  ghost predicate Scanned(active: seq<nat>, weight: seq<nat>, healthy: seq<bool>, start: nat, offset: nat, s: int) {
    && |active| == |weight| == |healthy| && start < |active| && s < |active|
    && if s < 0 then forall c | 0 <= c < |active| && Offset(start, c, |active|) < offset :: !healthy[c]
       else
         && healthy[s] && Offset(start, s, |active|) < offset
         && forall c | 0 <= c < |active| && Offset(start, c, |active|) < offset && healthy[c] ::
              Before(active, weight, start, s, c)
  }

  predicate Before(active: seq<nat>, weight: seq<nat>, start: nat, s: nat, c: nat)
    requires |active| == |weight| && start < |active| && s < |active| && c < |active|
  {
    && !Lighter(active, weight, c, s)
    && (Offset(start, c, |active|) < Offset(start, s, |active|) ==> Lighter(active, weight, s, c))
  }

  /** x connections on weight wx are fewer per unit of weight than y on wy, without a division. */
  predicate Less(x: nat, wx: nat, y: nat, wy: nat) {
    x * wy < y * wx
  }

  predicate Lighter(active: seq<nat>, weight: seq<nat>, c: nat, s: nat)
    requires |active| == |weight| && s < |active| && c < |active|
  {
    Less(active[c], weight[c], active[s], weight[s])
  }

  lemma LighterThanAll(active: seq<nat>, weight: seq<nat>, c: nat, s: nat, d: nat)
    requires |active| == |weight| && s < |active| && c < |active| && d < |active|
    requires weight[s] >= 1 && weight[d] >= 1
    requires Lighter(active, weight, c, s) && !Lighter(active, weight, d, s)
    ensures Lighter(active, weight, c, d) && !Lighter(active, weight, d, c)
  {
    StrictlyTransitive(active[c], weight[s], active[s], weight[c], active[d], weight[d]);
  }

  lemma ScanStep(active: seq<nat>, weight: seq<nat>, healthy: seq<bool>, start: nat, c: nat, s: int, next: int)
    requires |active| == |weight| == |healthy| && start < |active| && c < |active|
    requires Scanned(active, weight, healthy, start, Offset(start, c, |active|), s)
    requires forall i | 0 <= i < |weight| :: weight[i] >= 1
    requires next == if healthy[c] && (s < 0 || (s < |active| && Lighter(active, weight, c, s))) then c else s
    ensures Scanned(active, weight, healthy, start, Offset(start, c, |active|) + 1, next)
  {
    assert !Lighter(active, weight, c, c);
    hide Lighter;
    var offset := Offset(start, c, |active|);
    assert forall d | 0 <= d < |active| && Offset(start, d, |active|) == offset :: d == c;
    if healthy[c] && s >= 0 && Lighter(active, weight, c, s) {
      forall d | 0 <= d < |active| && Offset(start, d, |active|) < offset && healthy[d]
        ensures Before(active, weight, start, c, d) {
        assert Before(active, weight, start, s, d);
        LighterThanAll(active, weight, c, s, d);
      }
    }
  }

  lemma ScanAdvances(m: Meanwhile, locked: seq<nat>, weight: seq<nat>, health: seq<bool>, start: nat, offset: nat,
                     leader: int, next: int)
    requires |locked| == |weight| == |health| == |m.looks| && start < |health| && offset < |health|
    requires -1 <= leader < |health| && forall i | 0 <= i < |weight| :: weight[i] >= 1
    requires
      var c := Wrap(start + offset, |health|);
      Alone(m, |health|) ==>
        next == if health[c] && (leader < 0 || Lighter(locked, weight, c, leader)) then c else leader
    requires Alone(m, |health|) ==> Scanned(locked, weight, health, start, offset, leader)
    ensures
      var c, seen := Wrap(start + offset, |health|), SeenUpTo(m.looks, start, offset);
      SeenUpTo(m.looks, start, offset + 1) == if m.looks[c] then seen + {c} else seen
    ensures Alone(m, |health|) ==> Scanned(locked, weight, health, start, offset + 1, next)
  {
    hide SeenUpTo;
    RotationMeets(start, Wrap(start + offset, |health|), |health|, offset);
    SeenStep(m.looks, start, Wrap(start + offset, |health|));
    if Alone(m, |health|) {
      ScanStep(locked, weight, health, start, Wrap(start + offset, |health|), leader, next);
    }
  }

  lemma StrictlyTransitive(x: nat, wy: nat, y: nat, wx: nat, z: nat, wz: nat)
    requires x * wy < y * wx && y * wz <= z * wy && wy >= 1 && wz >= 1
    ensures x * wz < z * wx
  {
    MulMonotone(x * wy + 1, y * wx, wz);
    MulMonotone(y * wz, z * wy, wx);
    assert (x * wy + 1) * wz == (x * wz) * wy + wz;
    assert (y * wx) * wz == (y * wz) * wx;
    assert (z * wx) * wy == (z * wy) * wx;
    if x * wz >= z * wx {
      MulMonotone(z * wx, x * wz, wy);
    }
  }

  lemma FullScanChooses(active: seq<nat>, weight: seq<nat>, healthy: seq<bool>, start: nat, s: int)
    requires Scanned(active, weight, healthy, start, |active|, s)
    ensures Chosen(active, weight, healthy, start, s)
  {
    if s >= 0 {
      forall c | 0 <= c < |active| && healthy[c] ensures active[s] * weight[c] <= active[c] * weight[s] {
        assert Before(active, weight, start, s, c);
      }
      forall c | 0 <= c < |active| && healthy[c] && Offset(start, c, |active|) < Offset(start, s, |active|)
        ensures active[s] * weight[c] < active[c] * weight[s]
      {
        assert Before(active, weight, start, s, c);
      }
    }
  }

  /** The token for one connection charged to a backend. */
  class BackendLease {
    var backend: Backend?

    constructor (backend: Backend?)
      modifies (if backend == null then {} else {backend})`activeConnections
      ensures this.backend == backend
      ensures backend != null ==> backend.activeConnections == old(backend.activeConnections) + 1
    {
      this.backend := backend;
      new;
      if backend != null {
        backend.Acquire();
      }
    }

    /** Moving a lease charges nobody. */
    constructor Moved(other: BackendLease)
      modifies other`backend
      ensures backend == old(other.backend) && other.backend == null
    {
      backend := other.backend;
      new;
      other.backend := null;
    }

    method Assign(other: BackendLease)
      modifies this`backend, other`backend, (if backend == null then {} else {backend})`activeConnections
      ensures this != other ==> backend == old(other.backend) && other.backend == null
      ensures this == other ==> backend == old(backend)
      ensures this == other && backend != null ==> backend.activeConnections == old(backend.activeConnections)
      ensures this != other && old(backend) != null ==>
                old(backend).activeConnections ==
                  if old(backend.activeConnections) > 0 then old(backend.activeConnections) - 1 else 0
    {
      if this != other {
        Reset();
        backend := other.backend;
        other.backend := null;
      }
    }

    /** Also what the destructor does. */
    method Reset()
      modifies this`backend, (if backend == null then {} else {backend})`activeConnections
      ensures backend == null
      ensures old(backend) != null ==>
                old(backend).activeConnections ==
                  if old(backend.activeConnections) > 0 then old(backend.activeConnections) - 1 else 0
    {
      if backend != null {
        backend.Release();
        backend := null;
      }
    }
  }
}
