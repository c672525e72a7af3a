/** What a whole series of probes says about a backend, stated on the series itself, and the counters
    that decide the same thing one probe at a time. */
module HealthHistories {

  datatype ProbeState = ProbeState(consecutiveFailures: nat, consecutiveSuccesses: nat)

  datatype Verdict = Verdict(healthy: bool, state: ProbeState)

  /** The thresholds, and whether the backend was up when the probing began. */
  datatype Rule = Rule(up: bool, failureThreshold: nat, successThreshold: nat) {
    predicate Usable() {
      failureThreshold >= 1 && successThreshold >= 1
    }

    /** The run of probes that changes a verdict. */
    function Needed(healthy: bool): nat {
      if healthy then failureThreshold else successThreshold
    }
  }

  /** One probe. The counters are not reset when the verdict changes. */
  function Probe(v: Verdict, reachable: bool, rule: Rule): Verdict {
    if reachable then
      var successes := v.state.consecutiveSuccesses + 1;
      Verdict(v.healthy || successes >= rule.successThreshold, ProbeState(0, successes))
    else
      var failures := v.state.consecutiveFailures + 1;
      Verdict(v.healthy && failures < rule.failureThreshold, ProbeState(failures, 0))
  }

  function Watch(probes: seq<bool>, rule: Rule): Verdict {
    if probes == [] then Verdict(rule.up, ProbeState(0, 0))
    else Probe(Watch(probes[..|probes| - 1], rule), probes[|probes| - 1], rule)
  }

  /** `length` probes in a row, the last one before position `end`, all answered `outcome`. */
  predicate Window(probes: seq<bool>, outcome: bool, length: nat, end: nat) {
    length <= end <= |probes| && forall k | end - length <= k < end :: probes[k] == outcome
  }

  /** A window of successes ends after position `e`. */
  predicate Recovers(probes: seq<bool>, successThreshold: nat, e: nat) {
    exists r | e < r <= |probes| :: Window(probes, true, successThreshold, r)
  }

  /** Every window of failures has been followed by a window of successes, and so has a bad start. */
  predicate Trusted(probes: seq<bool>, rule: Rule) {
    && (rule.up || Recovers(probes, rule.successThreshold, 0))
    && forall e | 0 <= e <= |probes| && Window(probes, false, rule.failureThreshold, e) ::
         Recovers(probes, rule.successThreshold, e)
  }

  /** `length` is the number of equal probes at the end of the series. */
  predicate Trailing(probes: seq<bool>, outcome: bool, length: nat) {
    Window(probes, outcome, length, |probes|) && !Window(probes, outcome, length + 1, |probes|)
  }

  lemma TrailingGrows(probes: seq<bool>, outcome: bool, length: nat)
    requires Trailing(probes, outcome, length)
    ensures Trailing(probes + [outcome], outcome, length + 1)
    ensures Trailing(probes + [!outcome], outcome, 0)
  {
    assert forall k | 0 <= k < |probes| :: (probes + [outcome])[k] == probes[k];
    assert (probes + [!outcome])[|probes|] == !outcome;
  }

  lemma LongEnough(probes: seq<bool>, outcome: bool, length: nat, threshold: nat)
    requires Trailing(probes, outcome, length)
    ensures Window(probes, outcome, threshold, |probes|) <==> length >= threshold
  {
  }

  lemma EarlierWindows(probes: seq<bool>, next: bool, outcome: bool, length: nat, end: nat)
    requires end <= |probes|
    ensures Window(probes + [next], outcome, length, end) <==> Window(probes, outcome, length, end)
  {
    if length <= end {
      assert forall k | 0 <= k < end :: (probes + [next])[k] == probes[k];
    }
  }

  /** The counters keep exactly the trailing run, and the flag keeps exactly the history's verdict. */
  lemma {:induction false} VerdictRefinesHistory(probes: seq<bool>, rule: Rule)
    requires rule.Usable()
    ensures
      var v := Watch(probes, rule);
      && (v.healthy <==> Trusted(probes, rule))
      && Trailing(probes, false, v.state.consecutiveFailures)
      && Trailing(probes, true, v.state.consecutiveSuccesses)
  {
    if probes != [] {
      var before, last := probes[..|probes| - 1], probes[|probes| - 1];
      assert before + [last] == probes;
      VerdictRefinesHistory(before, rule);
      var v := Watch(before, rule);
      TrailingGrows(before, false, v.state.consecutiveFailures);
      TrailingGrows(before, true, v.state.consecutiveSuccesses);
      NextVerdict(before, last, v, rule);
    }
  }

  lemma NextVerdict(probes: seq<bool>, next: bool, v: Verdict, rule: Rule)
    requires rule.Usable() && (v.healthy <==> Trusted(probes, rule))
    requires Trailing(probes + [next], next,
                      (if next then v.state.consecutiveSuccesses else v.state.consecutiveFailures) + 1)
    ensures Probe(v, next, rule).healthy <==> Trusted(probes + [next], rule)
  {
    var after, n := probes + [next], |probes|;
    assert after[n] == next;
    assert !Window(after, !next, rule.Needed(next), n + 1);
    LongEnough(after, next, (if next then v.state.consecutiveSuccesses else v.state.consecutiveFailures) + 1,
               rule.Needed(!next));
    forall end | 0 <= end <= n
      ensures Window(after, false, rule.failureThreshold, end) <==> Window(probes, false, rule.failureThreshold, end)
      ensures Window(after, true, rule.successThreshold, end) <==> Window(probes, true, rule.successThreshold, end)
    {
      EarlierWindows(probes, next, false, rule.failureThreshold, end);
      EarlierWindows(probes, next, true, rule.successThreshold, end);
    }
    hide Window;
    if next && Window(after, true, rule.successThreshold, n + 1) {
      assert Trusted(after, rule);
    } else if !next && Window(after, false, rule.failureThreshold, n + 1) {
      assert !Recovers(after, rule.successThreshold, n + 1);
    } else {
      forall e | 0 <= e <= n
        ensures Recovers(after, rule.successThreshold, e) <==> Recovers(probes, rule.successThreshold, e) {
      }
    }
  }

  // How often the verdict can change.

  function Flips(probes: seq<bool>, rule: Rule): nat {
    if probes == [] then 0
    else
      var before := probes[..|probes| - 1];
      Flips(before, rule) + if Watch(before, rule).healthy == Watch(probes, rule).healthy then 0 else 1
  }

  /** The verdict after k changes. */
  predicate UpAfter(k: nat, rule: Rule) {
    if k % 2 == 0 then rule.up else !rule.up
  }

  /** The probes of the current run that speak against the verdict. */
  function Against(v: Verdict): nat {
    if v.healthy then v.state.consecutiveFailures else v.state.consecutiveSuccesses
  }

  /** What k changes cost in probes: failures to go down, successes to come back. */
  function Cost(k: nat, rule: Rule): nat {
    ((k + 1) / 2) * rule.Needed(rule.up) + (k / 2) * rule.Needed(!rule.up)
  }

  lemma NoCost(rule: Rule)
    ensures Cost(0, rule) == 0
  {
  }

  lemma CostOfNext(k: nat, rule: Rule)
    ensures Cost(k + 1, rule) == Cost(k, rule) + rule.Needed(UpAfter(k, rule))
  {
    var first, second := rule.Needed(rule.up), rule.Needed(!rule.up);
    if k % 2 == 0 {
      assert (k + 2) / 2 == k / 2 + 1 && (k + 1) / 2 == k / 2;
      assert (k / 2 + 1) * first == (k / 2) * first + first;
    } else {
      assert (k + 2) / 2 == (k + 1) / 2 && (k + 1) / 2 == k / 2 + 1;
      assert (k / 2 + 1) * second == (k / 2) * second + second;
    }
  }

  /** The windows behind successive changes never overlap: after k changes the probes of the
      current run against the verdict come on top of what the changes have cost. */
  lemma {:induction false} FlapsAreRare(probes: seq<bool>, rule: Rule)
    requires rule.Usable()
    ensures
      var v, k := Watch(probes, rule), Flips(probes, rule);
      v.healthy == UpAfter(k, rule) && |probes| >= Cost(k, rule) + Against(v)
  {
    NoCost(rule);
    hide Cost;
    if probes != [] {
      var before := probes[..|probes| - 1];
      FlapsAreRare(before, rule);
      CostOfNext(Flips(before, rule), rule);
    }
  }

  function Streak(outcome: bool, length: nat): seq<bool> {
    if length == 0 then [] else Streak(outcome, length - 1) + [outcome]
  }

  /** The run that changes the verdict `healthy`. */
  function Reversal(healthy: bool, rule: Rule): seq<bool> {
    Streak(!healthy, rule.Needed(healthy))
  }

  /** A series that changes the verdict k times as fast as the thresholds allow. */
  function Fastest(k: nat, rule: Rule): seq<bool> {
    if k == 0 then [] else Fastest(k - 1, rule) + Reversal(UpAfter(k - 1, rule), rule)
  }

  /** `longer` adds `length` probes against the verdict of `probes`, which changes with the last one
      needed and not before. */
  predicate Reverses(probes: seq<bool>, longer: seq<bool>, length: nat, rule: Rule) {
    var v, w := Watch(probes, rule), Watch(longer, rule);
    var flipped := length == rule.Needed(v.healthy);
    && |longer| == |probes| + length
    && (w.healthy != v.healthy <==> flipped)
    && (if v.healthy then w.state.consecutiveFailures else w.state.consecutiveSuccesses) == length
    && (length > 0 ==> (if v.healthy then w.state.consecutiveSuccesses else w.state.consecutiveFailures) == 0)
    && Flips(longer, rule) == Flips(probes, rule) + if flipped then 1 else 0
  }

  lemma OneMoreProbe(probes: seq<bool>, next: bool, rule: Rule)
    ensures Watch(probes + [next], rule) == Probe(Watch(probes, rule), next, rule)
    ensures Flips(probes + [next], rule)
         == Flips(probes, rule) + if Watch(probes, rule).healthy == Watch(probes + [next], rule).healthy then 0 else 1
  {
    assert (probes + [next])[..|probes|] == probes;
  }

  lemma OneMoreAgainst(probes: seq<bool>, longer: seq<bool>, length: nat, rule: Rule)
    requires Reverses(probes, longer, length, rule) && length < rule.Needed(Watch(probes, rule).healthy)
    ensures Reverses(probes, longer + [!Watch(probes, rule).healthy], length + 1, rule)
  {
    OneMoreProbe(longer, !Watch(probes, rule).healthy, rule);
    hide Watch, Flips;
  }

  lemma {:induction false} StreakFlips(probes: seq<bool>, length: nat, rule: Rule)
    requires rule.Usable() && Against(Watch(probes, rule)) == 0 && length <= rule.Needed(Watch(probes, rule).healthy)
    ensures Reverses(probes, probes + Streak(!Watch(probes, rule).healthy, length), length, rule)
  {
    hide Watch, Flips;
    var outcome := !Watch(probes, rule).healthy;
    if length == 0 {
      assert probes + Streak(outcome, 0) == probes;
    } else {
      StreakFlips(probes, length - 1, rule);
      OneMoreAgainst(probes, probes + Streak(outcome, length - 1), length - 1, rule);
      assert probes + Streak(outcome, length) == probes + Streak(outcome, length - 1) + [outcome];
    }
  }

  /** The verdict has changed k times in as few probes as that can take. */
  predicate OnTime(probes: seq<bool>, k: nat, rule: Rule) {
    var v := Watch(probes, rule);
    && |probes| == Cost(k, rule)
    && Flips(probes, rule) == k
    && v.healthy == UpAfter(k, rule)
    && Against(v) == 0
  }

  lemma StartsOnTime(rule: Rule)
    ensures OnTime([], 0, rule)
  {
  }

  lemma OneMoreFlip(probes: seq<bool>, k: nat, rule: Rule)
    requires rule.Usable() && OnTime(probes, k, rule)
    ensures OnTime(probes + Reversal(UpAfter(k, rule), rule), k + 1, rule)
  {
    hide Cost, Watch, Flips, Streak;
    CostOfNext(k, rule);
    StreakFlips(probes, rule.Needed(UpAfter(k, rule)), rule);
  }

  /** The bound is exact: for every k some series changes the verdict k times in just that many probes. */
  lemma {:induction false} CostIsReached(k: nat, rule: Rule)
    requires rule.Usable()
    ensures OnTime(Fastest(k, rule), k, rule)
  {
    hide Cost, Watch, Flips, Streak, OnTime;
    if k == 0 {
      StartsOnTime(rule);
    } else {
      CostIsReached(k - 1, rule);
      OneMoreFlip(Fastest(k - 1, rule), k - 1, rule);
    }
  }
}
