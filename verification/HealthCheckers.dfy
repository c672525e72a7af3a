/** The probe loop over all backends. */
module HealthCheckers {
  import opened Backends
  import opened HealthHistories

  class HealthChecker {
    const backends: seq<Backend>
    const failureThreshold: nat
    const successThreshold: nat
    var probeStates: map<Backend, ProbeState>
    ghost const initially: seq<bool>       // per backend, its flag when the checker was made
    ghost var probes: seq<seq<bool>>       // per backend, all answers so far

    /** The configuration loader guarantees thresholds of at least one. */
    constructor (backends: seq<Backend>, failureThreshold: nat, successThreshold: nat)
      requires failureThreshold >= 1 && successThreshold >= 1
      requires forall i, j | 0 <= i < j < |backends| :: backends[i] != backends[j]
      ensures Valid() && this.backends == backends
      ensures forall i | 0 <= i < |backends| :: probes[i] == [] && initially[i] == backends[i].healthy
      ensures this.failureThreshold == failureThreshold && this.successThreshold == successThreshold
    {
      this.backends, this.failureThreshold, this.successThreshold := backends, failureThreshold, successThreshold;
      probeStates := map[];
      probes := seq(|backends|, _ => []);
      initially := seq(|backends|, i requires 0 <= i < |backends| reads backends => backends[i].healthy);
    }

    ghost predicate Valid()
      reads this, backends
    {
      && failureThreshold >= 1 && successThreshold >= 1
      && (forall i, j | 0 <= i < j < |backends| :: backends[i] != backends[j])
      && |probes| == |initially| == |backends|
      && forall i | 0 <= i < |backends| :: Current(backends[i]) == Watch(probes[i], RuleOf(i))
    }

    ghost function RuleOf(i: nat): (rule: Rule)
      requires i < |initially|
    {
      Rule(initially[i], failureThreshold, successThreshold)
    }

    function Current(b: Backend): Verdict
      reads this, b
    {
      Verdict(b.healthy, if b in probeStates then probeStates[b] else ProbeState(0, 0))
    }

    /** One probe of every backend. `reachable` says how each connect attempt ends. */
    method CheckOnce(reachable: seq<bool>)
      requires Valid() && |reachable| == |backends|
      modifies this`probeStates, this`probes, backends`healthy
      ensures Valid()
      ensures forall i | 0 <= i < |backends| :: probes[i] == old(probes[i]) + [reachable[i]]
      ensures forall i | 0 <= i < |backends| :: backends[i].healthy <==> Trusted(probes[i], RuleOf(i))
    {
      hide Watch, Probe, Trusted;
      for i := 0 to |backends|
        invariant |probes| == |backends|
        invariant forall k | 0 <= k < i :: probes[k] == old(probes[k]) + [reachable[k]]
        invariant forall k | i <= k < |backends| :: probes[k] == old(probes[k])
        invariant forall k | 0 <= k < |backends| :: Current(backends[k]) == Watch(probes[k], RuleOf(k))
      {
        WatchOneMore(probes[i], reachable[i], RuleOf(i));
        ProbeIgnoresStart(Current(backends[i]), reachable[i], RuleOf(i));
        CheckOne(backends[i], reachable[i]);
        probes := probes[i := probes[i] + [reachable[i]]];
      }
      forall i | 0 <= i < |backends|
        ensures backends[i].healthy <==> Trusted(probes[i], RuleOf(i))
      {
        VerdictRefinesHistory(probes[i], RuleOf(i));
      }
    }

    /** The loop body. */
    method CheckOne(backend: Backend, reachable: bool)
      modifies this`probeStates, backend`healthy
      ensures Current(backend)
                == Probe(old(Current(backend)), reachable, Rule(true, failureThreshold, successThreshold))
      ensures probeStates.Keys == old(probeStates.Keys) + {backend}
      ensures forall b | b in old(probeStates) && b != backend :: probeStates[b] == old(probeStates)[b]
    {
      var state := if backend in probeStates then probeStates[backend] else ProbeState(0, 0);
      var previous := backend.healthy;
      if reachable {
        state := ProbeState(0, state.consecutiveSuccesses + 1);
        if !previous && state.consecutiveSuccesses >= successThreshold {
          backend.healthy := true;
        }
      } else {
        state := ProbeState(state.consecutiveFailures + 1, 0);
        if previous && state.consecutiveFailures >= failureThreshold {
          backend.healthy := false;
        }
      }
      probeStates := probeStates[backend := state];
    }
  }

  lemma WatchOneMore(probes: seq<bool>, reachable: bool, rule: Rule)
    ensures Watch(probes + [reachable], rule) == Probe(Watch(probes, rule), reachable, rule)
  {
    assert (probes + [reachable])[..|probes|] == probes;
  }

  lemma ProbeIgnoresStart(v: Verdict, reachable: bool, rule: Rule)
    ensures Probe(v, reachable, rule) == Probe(v, reachable, rule.(up := true))
  {
  }
}
