/** Counters shared by many threads: one atomic addition per token taken, and a release that loads
    the counter, compares it with zero and only then subtracts. Steps of different threads interleave
    freely between the load and the subtraction. Backends count their leases this way, and the
    process its open sessions. */
module GuardedCounters {

  /** One lease object (or session). A move is invisible to other threads and takes one step. */
  datatype Token =
    | Free
    | Held(counter: nat)
    | Loaded(counter: nat, value: int)   // inside release, after the load
    | Spent(counter: nat)                // release is done, the pointer not yet cleared

  datatype State = State(counts: seq<int>, tokens: map<nat, Token>)

  datatype Step =
    | Take(token: nat, counter: nat)
    | Move(source: nat, target: nat)
    | Load(token: nat)
    | Subtract(token: nat)
    | Clear(token: nat)

  function TokenAt(s: State, t: nat): Token {
    if t in s.tokens then s.tokens[t] else Free
  }

  predicate Enabled(s: State, step: Step) {
    match step
    case Take(t, c) => TokenAt(s, t).Free? && c < |s.counts|
    case Move(from, to) => TokenAt(s, from).Held? && TokenAt(s, to).Free?
    case Load(t) => TokenAt(s, t).Held? && TokenAt(s, t).counter < |s.counts|
    case Subtract(t) => TokenAt(s, t).Loaded? && TokenAt(s, t).counter < |s.counts|
    case Clear(t) => TokenAt(s, t).Spent?
  }

  function After(s: State, step: Step): State
    requires Enabled(s, step)
  {
    match step
    case Take(t, c) =>
      s.(counts := s.counts[c := s.counts[c] + 1], tokens := s.tokens[t := Held(c)])
    case Move(from, to) =>
      s.(tokens := s.tokens[to := TokenAt(s, from)][from := Free])
    case Load(t) =>
      var c := TokenAt(s, t).counter;
      s.(tokens := s.tokens[t := Loaded(c, s.counts[c])])
    case Subtract(t) =>
      var c := TokenAt(s, t).counter;
      s.(counts := if TokenAt(s, t).value > 0 then s.counts[c := s.counts[c] - 1] else s.counts,
         tokens := s.tokens[t := Spent(c)])
    case Clear(t) =>
      s.(tokens := s.tokens[t := Free])
  }

  /** Any interleaving of any number of threads. */
  predicate Schedule(s: State, steps: seq<Step>)
    decreases |steps|
  {
    steps == [] || (Enabled(s, steps[0]) && Schedule(After(s, steps[0]), steps[1..]))
  }

  function Final(s: State, steps: seq<Step>): State
    requires Schedule(s, steps)
    decreases |steps|
  {
    if steps == [] then s else Final(After(s, steps[0]), steps[1..])
  }

  predicate Owes(token: Token, c: nat) {
    (token.Held? || token.Loaded?) && token.counter == c
  }

  /** The tokens whose one unit is still in counter c. */
  function Owners(tokens: map<nat, Token>, c: nat): set<nat> {
    set t | t in tokens && Owes(tokens[t], c)
  }

  predicate Exact(s: State) {
    forall c | 0 <= c < |s.counts| :: s.counts[c] == |Owners(s.tokens, c)|
  }

  predicate Sane(s: State) {
    forall t | t in s.tokens ::
      var k := s.tokens[t];
      && (k.Held? || k.Loaded? ==> k.counter < |s.counts|)
      && (k.Loaded? ==> k.value > 0)
  }

  function Idle(counters: nat): (s: State)
    ensures Exact(s) && Sane(s)
  {
    State(seq(counters, _ => 0), map[])
  }

  function Unit(token: Token, c: nat): nat {
    if Owes(token, c) then 1 else 0
  }

  lemma OwnersWith(s: State, t: nat, k: Token, c: nat)
    ensures |Owners(s.tokens[t := k], c)| == |Owners(s.tokens, c)| + Unit(k, c) - Unit(TokenAt(s, t), c)
  {
    assert Owners(s.tokens[t := k], c) == if Owes(k, c) then Owners(s.tokens, c) + {t} else Owners(s.tokens, c) - {t};
    assert t in Owners(s.tokens, c) <==> Owes(TokenAt(s, t), c);
  }

  lemma OwnedIsPositive(s: State, t: nat)
    requires Exact(s) && Sane(s) && (TokenAt(s, t).Held? || TokenAt(s, t).Loaded?)
    ensures TokenAt(s, t).counter < |s.counts| && s.counts[TokenAt(s, t).counter] > 0
  {
    assert t in Owners(s.tokens, TokenAt(s, t).counter);
  }

  lemma StepMovesUnits(s: State, step: Step, c: nat)
    requires Exact(s) && Sane(s) && Enabled(s, step) && c < |s.counts|
    ensures After(s, step).counts[c] == |Owners(After(s, step).tokens, c)|
  {
    hide Owners;
    match step
    case Move(from, to) =>
      OwnersWith(s, to, TokenAt(s, from), c);
      OwnersWith(s.(tokens := s.tokens[to := TokenAt(s, from)]), from, Free, c);
    case _ =>
      OwnersWith(s, step.token, TokenAt(After(s, step), step.token), c);
  }

  /** Every unit goes in and out exactly once, whatever the interleaving. */
  lemma StepIsExact(s: State, step: Step)
    requires Exact(s) && Sane(s) && Enabled(s, step)
    ensures Exact(After(s, step)) && Sane(After(s, step))
  {
    forall c | 0 <= c < |s.counts| ensures After(s, step).counts[c] == |Owners(After(s, step).tokens, c)| {
      StepMovesUnits(s, step, c);
    }
    hide Owners;
    if step.Load? {
      OwnedIsPositive(s, step.token);
    }
  }

  lemma {:induction false} EveryScheduleIsExact(s: State, steps: seq<Step>)
    requires Exact(s) && Sane(s) && Schedule(s, steps)
    ensures Exact(Final(s, steps)) && Sane(Final(s, steps))
    decreases |steps|
  {
    if steps != [] {
      StepIsExact(s, steps[0]);
      EveryScheduleIsExact(After(s, steps[0]), steps[1..]);
    }
  }

  /** From an idle start, in every interleaving: no counter is ever negative, each equals the number
      of its unspent tokens, the guard against zero never fires, and when every token is spent all
      counters are back at zero. */
  lemma NeverUnderflows(counters: nat, steps: seq<Step>)
    requires Schedule(Idle(counters), steps)
    ensures
      var s := Final(Idle(counters), steps);
      && (forall c | 0 <= c < |s.counts| :: s.counts[c] >= 0 && s.counts[c] == |Owners(s.tokens, c)|)
      && (forall t | t in s.tokens && s.tokens[t].Loaded? :: s.tokens[t].value > 0)
      && ((forall t | t in s.tokens :: s.tokens[t].Free? || s.tokens[t].Spent?) ==>
            forall c | 0 <= c < |s.counts| :: s.counts[c] == 0)
  {
    EveryScheduleIsExact(Idle(counters), steps);
    var s := Final(Idle(counters), steps);
    if forall t | t in s.tokens :: s.tokens[t].Free? || s.tokens[t].Spent? {
      forall c | 0 <= c < |s.counts| ensures s.counts[c] == 0 {
        assert Owners(s.tokens, c) == {};
      }
    }
  }

  /** The guard alone would not do: two tokens for one unit, both loaded before either subtracts,
      drive the counter below zero. Only the one-unit-per-token discipline keeps it sound. */
  lemma GuardAloneIsNotEnough() returns (s: State, steps: seq<Step>)
    ensures |s.counts| == 1 && s.counts[0] == 1 && |Owners(s.tokens, 0)| == 2
    ensures Schedule(s, steps) && |Final(s, steps).counts| == 1 && Final(s, steps).counts[0] == -1
  {
    s := State([1], map[0 := Held(0), 1 := Held(0)]);
    assert Owners(s.tokens, 0) == {0, 1};
    steps := [Load(0), Load(1), Subtract(0), Subtract(1)];
    var s1 := After(s, Load(0));
    var s2 := After(s1, Load(1));
    var s3 := After(s2, Subtract(0));
    assert steps[1..] == [Load(1), Subtract(0), Subtract(1)];
    assert steps[1..][1..] == [Subtract(0), Subtract(1)];
    assert steps[1..][1..][1..] == [Subtract(1)];
    assert Schedule(s3, [Subtract(1)]);
    assert Schedule(s2, [Subtract(0), Subtract(1)]);
    assert Schedule(s1, steps[1..]);
  }
}
