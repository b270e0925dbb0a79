/** The process-wide counter of session identities in `crates/r-embed/src/session.rs`: any number of threads
  take identities by a weak compare-and-exchange loop without ordering between them. */
module SessionIds {
  const U64_MAX: nat := 0xffff_ffff_ffff_ffff

  // -------------------------------------------------------------------------
  // The atomic counter
  // -------------------------------------------------------------------------

  /** A relaxed read may see any value the counter has had, and so may a failed exchange; the values
      only grow.  An exchange that succeeds has met the latest one. */
  class Counter {
    var value: nat

    ghost predicate Valid()
      reads this
    {
      1 <= value <= U64_MAX
    }

    constructor ()
      ensures Valid() && value == 1
    {
      value := 1;
    }

    /** `weak` is whether the exchange fails for no reason. */
    method CompareExchangeWeak(current: nat, next: nat, weak: bool, seen: nat) returns (ok: bool, previous: nat)
      requires Valid() && 1 <= seen <= value && 1 <= next <= U64_MAX
      modifies this
      ensures Valid()
      ensures ok == (old(value) == current && !weak)
      ensures if ok then value == next && previous == current else value == old(value) && previous == seen
    {
      if value == current && !weak {
        value := next;
        return true, current;
      }
      return false, seen;
    }

    /** The body of the loop in `construct`, in thread `t`. */
    method TryOnce(current: nat, weak: bool, seen: nat) returns (t: Thread)
      requires Valid() && 1 <= current <= U64_MAX && 1 <= seen <= value
      modifies this
      ensures Valid()
      ensures (value, t) == Tried(old(value), current, weak, seen)
    {
      if current == U64_MAX {
        return Exhausted;
      }
      var ok, previous := CompareExchangeWeak(current, current + 1, weak, seen);
      t := if ok then Done(previous) else Trying(previous);
    }
  }

  // -------------------------------------------------------------------------
  // Threads
  // -------------------------------------------------------------------------

  datatype Thread = Idle | Trying(current: nat) | Done(id: nat) | Exhausted

  function Tried(value: nat, current: nat, weak: bool, seen: nat): (nat, Thread) {
    if current == U64_MAX then (value, Exhausted)
    else if value == current && !weak then (current + 1, Done(current))
    else (value, Trying(seen))
  }

  /** `given` lists the identities in the order in which they were taken. */
  datatype State = State(value: nat, threads: seq<Thread>, given: seq<nat>)

  datatype Step =
    | Begin(t: nat, seen: nat)
    | Try(t: nat, weak: bool, seen: nat)

  predicate Enabled(s: State, step: Step) {
    && step.t < |s.threads| && 1 <= step.seen <= s.value
    && match step
       case Begin(t, _) => !s.threads[t].Trying?
       case Try(t, _, _) => s.threads[t].Trying?
  }

  function Next(s: State, step: Step): State
    requires Enabled(s, step)
  {
    match step
    case Begin(t, seen) => s.(threads := s.threads[t := Trying(seen)])
    case Try(t, weak, seen) =>
      var (value, after) := Tried(s.value, s.threads[t].current, weak, seen);
      State(value, s.threads[t := after], if after.Done? then s.given + [after.id] else s.given)
  }

  function Start(threads: nat): State {
    State(1, seq(threads, _ => Idle), [])
  }

  ghost predicate Runs(s: State, steps: seq<Step>)
    decreases |steps|
  {
    steps == [] || (Enabled(s, steps[0]) && Runs(Next(s, steps[0]), steps[1..]))
  }

  function Run(s: State, steps: seq<Step>): State
    requires Runs(s, steps)
    decreases |steps|
  {
    if steps == [] then s else Run(Next(s, steps[0]), steps[1..])
  }

  // -------------------------------------------------------------------------
  // Safety
  // -------------------------------------------------------------------------

  /** The identities taken are 1, 2, 3 and so on without a gap; every thread holds a value the counter
      has had, or an identity that was given, or has seen the counter at its end. */
  ghost predicate Sound(s: State) {
    && s.value == |s.given| + 1 && s.value <= U64_MAX
    && (forall i :: 0 <= i < |s.given| ==> s.given[i] == i + 1)
    && forall t :: 0 <= t < |s.threads| ==> SoundThread(s.value, s.threads[t])
  }

  predicate SoundThread(value: nat, t: Thread) {
    match t
    case Idle => true
    case Trying(current) => 1 <= current <= value
    case Done(id) => 1 <= id < value
    case Exhausted => value == U64_MAX
  }

  lemma StepIsSound(s: State, step: Step)
    requires Sound(s) && Enabled(s, step)
    ensures Sound(Next(s, step)) && s.value <= Next(s, step).value <= s.value + 1
    ensures s.given <= Next(s, step).given
  {
    var r := Next(s, step);
    forall t | 0 <= t < |r.threads| ensures SoundThread(r.value, r.threads[t]) {
      assert SoundThread(s.value, s.threads[t]);
    }
  }

  /** Whatever the threads do, in whatever order, with stale reads and needless failures. */
  lemma {:induction false} RunIsSound(s: State, steps: seq<Step>)
    requires Sound(s) && Runs(s, steps)
    ensures Sound(Run(s, steps)) && s.value <= Run(s, steps).value && s.given <= Run(s, steps).given
    decreases |steps|
  {
    hide Sound, Enabled, Next;
    if steps != [] {
      StepIsSound(s, steps[0]);
      RunIsSound(Next(s, steps[0]), steps[1..]);
    }
  }

  lemma StartIsSound(threads: nat)
    ensures Sound(Start(threads))
  {
  }

  /** From the start of the process, the identities given out are exactly 1 to the counter, each once,
      in the order of the exchanges, and the counter never wraps. */
  lemma IdentitiesAreConsecutive(threads: nat, steps: seq<Step>)
    requires Runs(Start(threads), steps)
    ensures var s := Run(Start(threads), steps);
      && s.value == |s.given| + 1 && s.value <= U64_MAX
      && (forall i :: 0 <= i < |s.given| ==> s.given[i] == i + 1)
      && (forall i, j :: 0 <= i < j < |s.given| ==> s.given[i] != s.given[j])
  {
    hide Runs, Run, Next;
    StartIsSound(threads);
    RunIsSound(Start(threads), steps);
  }

  /** A session is refused only when all identities but the last number are taken, and from then on
      nothing changes any more. */
  lemma ExhaustionIsFinal(threads: nat, steps: seq<Step>, more: seq<Step>, t: nat)
    requires Runs(Start(threads), steps) && Runs(Run(Start(threads), steps), more)
    requires var s := Run(Start(threads), steps); t < |s.threads| && s.threads[t].Exhausted?
    ensures var s := Run(Start(threads), steps);
      && |s.given| == U64_MAX - 1
      && Run(s, more).value == U64_MAX && Run(s, more).given == s.given
  {
    var s := Run(Start(threads), steps);
    hide Runs, Run, Next;
    StartIsSound(threads);
    RunIsSound(Start(threads), steps);
    assert SoundThread(s.value, s.threads[t]);
    RunIsSound(s, more);
  }

  /** A thread that is left alone, reads the latest value when it fails, and does not fail without
      reason has its identity after at most two tries, or finds the numbers used up. */
  lemma AloneTwoTriesSuffice(s: State, t: nat)
    requires Sound(s) && t < |s.threads| && s.threads[t].Trying?
    ensures var one := Next(s, Try(t, false, s.value));
      || !one.threads[t].Trying?
      || (Enabled(one, Try(t, false, one.value)) && !Next(one, Try(t, false, one.value)).threads[t].Trying?)
  {
    assert SoundThread(s.value, s.threads[t]);
  }

  /** An identity is returned to the thread whose exchange took it. */
  lemma TakenIsReturned(s: State, step: Step)
    requires Enabled(s, step)
    ensures Next(s, step).given != s.given
      <==> step.Try? && Next(s, step).threads[step.t].Done? && Next(s, step).given == s.given + [Next(s, step).threads[step.t].id]
    ensures forall u :: 0 <= u < |s.threads| && u != step.t ==> Next(s, step).threads[u] == s.threads[u]
  {
    assert |s.given| < |s.given + [0]|;
  }
}
