/** The quota of drafting requests in `website/server/draft-code.ts`: a Redis script that decides in one
  transaction, and any number of request handlers around it.  Times are in milliseconds. */
module Quota {
  import opened Wrappers

  const MINUTE := 60_000
  const DAY := 86_400_000
  const MINUTE_TTL := 120_000
  const DAY_TTL := 172_800_000

  datatype Key = MinuteKey(user: nat, bucket: nat) | DayKey(user: nat, bucket: nat) | TokensKey(bucket: nat)

  datatype Entry = Entry(value: nat, expires: nat)

  type Store = map<Key, Entry>

  // -------------------------------------------------------------------------
  // The script
  // -------------------------------------------------------------------------

  /** `GET`, with zero for what is missing or has expired. */
  function Get(store: Store, key: Key, now: nat): nat {
    if key in store && now < store[key].expires then store[key].value else 0
  }

  /** `INCRBY` and `EXPIRE`. */
  function Add(store: Store, key: Key, n: nat, now: nat, ttl: nat): Store {
    store[key := Entry(Get(store, key, now) + n, now + ttl)]
  }

  /** What a request asks the script for. */
  datatype Ask = Ask(user: nat, minute: nat, day: nat, tokens: nat)

  predicate Accepts(store: Store, a: Ask, budget: nat, now: nat) {
    && Get(store, MinuteKey(a.user, a.minute), now) < 3
    && Get(store, DayKey(a.user, a.day), now) < 10
    && Get(store, TokensKey(a.day), now) + a.tokens <= budget
  }

  function Charged(store: Store, a: Ask, now: nat): Store {
    Add(Add(Add(store, MinuteKey(a.user, a.minute), 1, now, MINUTE_TTL),
            DayKey(a.user, a.day), 1, now, DAY_TTL),
        TokensKey(a.day), a.tokens, now, DAY_TTL)
  }

  class Redis {
    var store: Store

    constructor ()
      ensures store == map[]
    {
      store := map[];
    }

    /** The `RESERVE` script, which nothing interrupts. */
    method Reserve(a: Ask, budget: nat, now: nat) returns (result: nat)
      modifies this
      ensures result == if Accepts(old(store), a, budget, now) then 1 else 0
      ensures store == if result == 1 then Charged(old(store), a, now) else old(store)
    {
      var minute := Get(store, MinuteKey(a.user, a.minute), now);
      var day := Get(store, DayKey(a.user, a.day), now);
      var tokens := Get(store, TokensKey(a.day), now);
      if minute >= 3 || day >= 10 || tokens + a.tokens > budget {
        return 0;
      }
      store := Add(store, MinuteKey(a.user, a.minute), 1, now, MINUTE_TTL);
      store := Add(store, DayKey(a.user, a.day), 1, now, DAY_TTL);
      store := Add(store, TokensKey(a.day), a.tokens, now, DAY_TTL);
      result := 1;
    }
  }

  // -------------------------------------------------------------------------
  // Requests in flight
  // -------------------------------------------------------------------------

  datatype Script = InFlight | Ran(accepted: bool)

  datatype Handler = Waiting | Generating | Refused | Unavailable

  datatype Request = Request(ask: Ask, sentAt: nat, script: Script, handler: Handler)

  datatype Accepted = Accepted(id: nat, ask: Ask)

  /** `log` lists the accepted reservations in order. */
  datatype State = State(now: nat, store: Store, requests: map<nat, Request>, log: seq<Accepted>)

  /** `Execute` is the script running on the server, `Deliver` its answer reaching the handler.  The
      handler may give up before or after; the script then still runs, or never does. */
  datatype Step =
    | Tick(millis: nat)
    | Send(id: nat, user: nat, tokens: nat)
    | Execute(id: nat)
    | Deliver(id: nat)
    | GiveUp(id: nat)

  function AskAt(user: nat, tokens: nat, now: nat): Ask {
    Ask(user, now / MINUTE, now / DAY, tokens)
  }

  /** A script runs at most `lag` after the handler read the clock. */
  predicate Enabled(s: State, step: Step, lag: nat) {
    match step
    case Tick(_) => true
    case Send(id, _, _) => id !in s.requests
    case Execute(id) => id in s.requests && s.requests[id].script.InFlight? && s.now <= s.requests[id].sentAt + lag
    case Deliver(id) => id in s.requests && s.requests[id].script.Ran? && s.requests[id].handler.Waiting?
    case GiveUp(id) => id in s.requests && s.requests[id].handler.Waiting?
  }

  function Next(s: State, step: Step, budget: nat, lag: nat): State
    requires Enabled(s, step, lag)
  {
    match step
    case Tick(millis) => s.(now := s.now + millis)
    case Send(id, user, tokens) =>
      s.(requests := s.requests[id := Request(AskAt(user, tokens, s.now), s.now, InFlight, Waiting)])
    case Execute(id) =>
      var r := s.requests[id];
      var ok := Accepts(s.store, r.ask, budget, s.now);
      var ran := s.(requests := s.requests[id := r.(script := Ran(ok))]);
      if ok then ran.(store := Charged(s.store, r.ask, s.now), log := s.log + [Accepted(id, r.ask)]) else ran
    case Deliver(id) =>
      var r := s.requests[id];
      s.(requests := s.requests[id := r.(handler := if r.script.accepted then Generating else Refused)])
    case GiveUp(id) =>
      s.(requests := s.requests[id := s.requests[id].(handler := Unavailable)])
  }

  const START := State(0, map[], map[], [])

  ghost predicate Runs(s: State, steps: seq<Step>, budget: nat, lag: nat)
    decreases |steps|
  {
    steps == [] || (Enabled(s, steps[0], lag) && Runs(Next(s, steps[0], budget, lag), steps[1..], budget, lag))
  }

  function Run(s: State, steps: seq<Step>, budget: nat, lag: nat): State
    requires Runs(s, steps, budget, lag)
    decreases |steps|
  {
    if steps == [] then s else Run(Next(s, steps[0], budget, lag), steps[1..], budget, lag)
  }

  // -------------------------------------------------------------------------
  // What the counters mean
  // -------------------------------------------------------------------------

  /** What an accepted reservation adds to a counter. */
  function Adds(key: Key, a: Ask): nat {
    match key
    case MinuteKey(user, bucket) => if a.user == user && a.minute == bucket then 1 else 0
    case DayKey(user, bucket) => if a.user == user && a.day == bucket then 1 else 0
    case TokensKey(bucket) => if a.day == bucket then a.tokens else 0
  }

  predicate Touches(key: Key, a: Ask) {
    match key
    case MinuteKey(user, bucket) => a.user == user && a.minute == bucket
    case DayKey(user, bucket) => a.user == user && a.day == bucket
    case TokensKey(bucket) => a.day == bucket
  }

  function Total(log: seq<Accepted>, key: Key): nat {
    if log == [] then 0 else Total(log[..|log| - 1], key) + Adds(key, log[|log| - 1].ask)
  }

  /** Until when a counter is safe from expiry once it exists. */
  function SafeUntil(key: Key): nat {
    match key
    case MinuteKey(_, bucket) => bucket * MINUTE + MINUTE_TTL
    case DayKey(_, bucket) => bucket * DAY + DAY_TTL
    case TokensKey(bucket) => bucket * DAY + DAY_TTL
  }

  function Limit(key: Key, budget: nat): nat {
    match key
    case MinuteKey(_, _) => 3
    case DayKey(_, _) => 10
    case TokensKey(_) => budget
  }

  /** The longest delay of a script that the expiry of a counter surely bears. */
  function Patience(key: Key): nat {
    if key.MinuteKey? then MINUTE else DAY
  }

  /** Every counter that bears the delay holds exactly what was accepted in its bucket, within the limit. */
  ghost predicate Counts(s: State, budget: nat, lag: nat) {
    forall key :: lag <= Patience(key) ==> Counted(s, key, budget)
  }

  ghost predicate Counted(s: State, key: Key, budget: nat) {
    && Total(s.log, key) <= Limit(key, budget)
    && (if key in s.store then s.store[key].value == Total(s.log, key) && s.store[key].expires >= SafeUntil(key)
        else Total(s.log, key) == 0)
  }

  /** Requests ask for the buckets of the time at which they were sent. */
  ghost predicate Dated(s: State) {
    forall id :: id in s.requests ==>
      var r := s.requests[id];
      r.sentAt <= s.now && r.ask == AskAt(r.ask.user, r.ask.tokens, r.sentAt)
  }

  /** While a request may run, the counters of its buckets have not expired. */
  lemma StillCounting(s: State, key: Key, a: Ask, sentAt: nat, budget: nat)
    requires Counted(s, key, budget) && Touches(key, a) && a == AskAt(a.user, a.tokens, sentAt)
    requires sentAt <= s.now <= sentAt + Patience(key)
    ensures Get(s.store, key, s.now) == Total(s.log, key)
    ensures SafeUntil(key) <= s.now + (if key.MinuteKey? then MINUTE_TTL else DAY_TTL)
  {
    Buckets(sentAt);
  }

  lemma Buckets(t: nat)
    ensures t / MINUTE * MINUTE <= t < t / MINUTE * MINUTE + MINUTE
    ensures t / DAY * DAY <= t < t / DAY * DAY + DAY
  {
  }

  lemma TotalOfMore(log: seq<Accepted>, entry: Accepted, key: Key)
    ensures Total(log + [entry], key) == Total(log, key) + Adds(key, entry.ask)
  {
    assert (log + [entry])[..|log|] == log;
  }

  /** The script decides by the accepted reservations, and by nothing else. */
  lemma DecidesByLog(s: State, a: Ask, sentAt: nat, budget: nat)
    requires Counts(s, budget, MINUTE) && a == AskAt(a.user, a.tokens, sentAt) && sentAt <= s.now <= sentAt + MINUTE
    ensures Accepts(s.store, a, budget, s.now)
      <==> forall key :: Touches(key, a) ==> Total(s.log, key) + Adds(key, a) <= Limit(key, budget)
  {
    hide Total, Get, SafeUntil, AskAt;
    var m, d, t := MinuteKey(a.user, a.minute), DayKey(a.user, a.day), TokensKey(a.day);
    assert Counted(s, m, budget) && Counted(s, d, budget) && Counted(s, t, budget);
    StillCounting(s, m, a, sentAt, budget);
    StillCounting(s, d, a, sentAt, budget);
    StillCounting(s, t, a, sentAt, budget);
    hide Counted, Counts;
    assert Touches(m, a) && Touches(d, a) && Touches(t, a);
    forall key | Touches(key, a) ensures key == m || key == d || key == t {
    }
  }

  /** What it accepts leaves room in every counter that bears the delay. */
  lemma AcceptsWithin(s: State, a: Ask, sentAt: nat, budget: nat, key: Key)
    requires Accepts(s.store, a, budget, s.now) && Counted(s, key, budget) && Touches(key, a)
    requires a == AskAt(a.user, a.tokens, sentAt) && sentAt <= s.now <= sentAt + Patience(key)
    ensures Total(s.log, key) + Adds(key, a) <= Limit(key, budget)
  {
    hide Total, Get, AskAt;
    StillCounting(s, key, a, sentAt, budget);
  }

  lemma ExecuteCounts(s: State, id: nat, budget: nat, lag: nat)
    requires Counts(s, budget, lag) && Dated(s) && Enabled(s, Execute(id), lag)
    ensures Counts(Next(s, Execute(id), budget, lag), budget, lag)
  {
    var r, s' := s.requests[id], Next(s, Execute(id), budget, lag);
    AskIsDated(s, id);
    hide Dated;
    if Accepts(s.store, r.ask, budget, s.now) {
      forall key | lag <= Patience(key) ensures Counted(s', key, budget) {
        assert Counted(s, key, budget);
        hide Counts;
        TotalOfMore(s.log, Accepted(id, r.ask), key);
        if Touches(key, r.ask) {
          AcceptsWithin(s, r.ask, r.sentAt, budget, key);
          StillCounting(s, key, r.ask, r.sentAt, budget);
        }
        ChargedKey(s.store, r.ask, s.now, key);
        hide Charged, Accepts, AskAt, Total, Get;
      }
    } else {
      forall key | lag <= Patience(key) ensures Counted(s', key, budget) {
        assert Counted(s, key, budget);
      }
    }
  }

  lemma AskIsDated(s: State, id: nat)
    requires Dated(s) && id in s.requests
    ensures var r := s.requests[id]; r.sentAt <= s.now && r.ask == AskAt(r.ask.user, r.ask.tokens, r.sentAt)
  {
  }

  lemma ChargedKey(store: Store, a: Ask, now: nat, key: Key)
    ensures var r := Charged(store, a, now);
      if Touches(key, a) then key in r && r[key] == Entry(Get(store, key, now) + Adds(key, a), now + if key.MinuteKey? then MINUTE_TTL else DAY_TTL)
      else (key in r <==> key in store) && (key in r ==> r[key] == store[key])
  {
  }

  // -------------------------------------------------------------------------
  // Runs
  // -------------------------------------------------------------------------

  lemma StepDates(s: State, step: Step, budget: nat, lag: nat)
    requires Dated(s) && Enabled(s, step, lag)
    ensures Dated(Next(s, step, budget, lag))
  {
    hide Accepts, Charged, Total;
  }

  lemma StepCounts(s: State, step: Step, budget: nat, lag: nat)
    requires Counts(s, budget, lag) && Dated(s) && Enabled(s, step, lag)
    ensures Counts(Next(s, step, budget, lag), budget, lag)
  {
    hide Accepts, Charged, Total, Dated;
    var s' := Next(s, step, budget, lag);
    if step.Execute? {
      ExecuteCounts(s, step.id, budget, lag);
    } else {
      forall key | lag <= Patience(key) ensures Counted(s', key, budget) {
        assert Counted(s, key, budget);
      }
    }
  }

  lemma {:induction false} RunCounts(s: State, steps: seq<Step>, budget: nat, lag: nat)
    requires Counts(s, budget, lag) && Dated(s) && Runs(s, steps, budget, lag)
    ensures Counts(Run(s, steps, budget, lag), budget, lag)
    decreases |steps|
  {
    hide Counts, Dated, Enabled, Next;
    if steps != [] {
      StepCounts(s, steps[0], budget, lag);
      StepDates(s, steps[0], budget, lag);
      RunCounts(Next(s, steps[0], budget, lag), steps[1..], budget, lag);
    }
  }

  /** Over any interleaving of requests, if no script runs more than `lag` after its handler read the
      clock: with a lag of at most a minute an account has at most three accepted reservations in a
      minute; with a lag of at most a day it has at most ten in a day, and the tokens accepted in a day
      stay within the budget. */
  lemma QuotaHolds(steps: seq<Step>, budget: nat, lag: nat, user: nat, bucket: nat)
    requires Runs(START, steps, budget, lag)
    ensures var log := Run(START, steps, budget, lag).log;
      && (lag <= MINUTE ==> Total(log, MinuteKey(user, bucket)) <= 3)
      && (lag <= DAY ==> Total(log, DayKey(user, bucket)) <= 10 && Total(log, TokensKey(bucket)) <= budget)
  {
    assert Counts(START, budget, lag);
    hide Runs, Run;
    RunCounts(START, steps, budget, lag);
    var s := Run(START, steps, budget, lag);
    assert lag <= MINUTE ==> Counted(s, MinuteKey(user, bucket), budget);
    assert lag <= DAY ==> Counted(s, DayKey(user, bucket), budget) && Counted(s, TokensKey(bucket), budget);
  }

  /** A refused script changes no counter. */
  lemma RefusalChangesNothing(s: State, id: nat, budget: nat, lag: nat)
    requires Enabled(s, Execute(id), lag)
    ensures var s' := Next(s, Execute(id), budget, lag);
      && (!s'.requests[id].script.accepted <==> s'.log == s.log)
      && (!s'.requests[id].script.accepted ==> s'.store == s.store)
  {
    assert |s.log + [Accepted(id, s.requests[id].ask)]| > |s.log|;
  }

  // -------------------------------------------------------------------------
  // The minute is needed
  // -------------------------------------------------------------------------

  /** Three requests at the beginning of a minute, and one at its end whose script comes late. */
  function LateRun(): seq<Step> {
    [Send(1, 0, 1), Send(2, 0, 1), Send(3, 0, 1), Execute(1), Execute(2), Execute(3),
     Tick(MINUTE - 1), Send(4, 0, 1), Tick(MINUTE + 1), Execute(4)]
  }

  function LateState(k: nat): State
    requires k <= 10
  {
    var early := Ask(0, 0, 0, 1);
    var m, d, t := MinuteKey(0, 0), DayKey(0, 0), TokensKey(0);
    var flying, ran := Request(early, 0, InFlight, Waiting), Request(early, 0, Ran(true), Waiting);
    var late := Request(early, MINUTE - 1, InFlight, Waiting);
    var full := map[m := Entry(3, MINUTE_TTL), d := Entry(3, DAY_TTL), t := Entry(3, DAY_TTL)];
    var three := [Accepted(1, early), Accepted(2, early), Accepted(3, early)];
    if k == 0 then START
    else if k == 1 then State(0, map[], map[1 := flying], [])
    else if k == 2 then State(0, map[], map[1 := flying, 2 := flying], [])
    else if k == 3 then State(0, map[], map[1 := flying, 2 := flying, 3 := flying], [])
    else if k == 4 then State(0, map[m := Entry(1, MINUTE_TTL), d := Entry(1, DAY_TTL), t := Entry(1, DAY_TTL)],
                              map[1 := ran, 2 := flying, 3 := flying], three[..1])
    else if k == 5 then State(0, map[m := Entry(2, MINUTE_TTL), d := Entry(2, DAY_TTL), t := Entry(2, DAY_TTL)],
                              map[1 := ran, 2 := ran, 3 := flying], three[..2])
    else if k == 6 then State(0, full, map[1 := ran, 2 := ran, 3 := ran], three)
    else if k == 7 then State(MINUTE - 1, full, map[1 := ran, 2 := ran, 3 := ran], three)
    else if k == 8 then State(MINUTE - 1, full, map[1 := ran, 2 := ran, 3 := ran, 4 := late], three)
    else if k == 9 then State(2 * MINUTE, full, map[1 := ran, 2 := ran, 3 := ran, 4 := late], three)
    else State(2 * MINUTE, map[m := Entry(1, 2 * MINUTE + MINUTE_TTL), d := Entry(4, 2 * MINUTE + DAY_TTL), t := Entry(4, 2 * MINUTE + DAY_TTL)],
               map[1 := ran, 2 := ran, 3 := ran, 4 := late.(script := Ran(true))], three + [Accepted(4, early)])
  }

  lemma LateStep(k: nat, budget: nat, lag: nat)
    requires k < 10 && lag > MINUTE && budget >= 4
    ensures Enabled(LateState(k), LateRun()[k], lag) && Next(LateState(k), LateRun()[k], budget, lag) == LateState(k + 1)
  {
    if k < 3 {
      assert Next(LateState(k), LateRun()[k], budget, lag).requests == LateState(k + 1).requests;
    } else if k < 6 {
      EarlyExecutes(k, budget, lag);
    } else if k == 7 {
      assert AskAt(0, 1, MINUTE - 1) == Ask(0, 0, 0, 1);
      assert Next(LateState(7), LateRun()[7], budget, lag).requests == LateState(8).requests;
    } else if k == 9 {
      LateExecutes(budget, lag);
    }
  }

  lemma EarlyExecutes(k: nat, budget: nat, lag: nat)
    requires 3 <= k < 6 && budget >= 4
    ensures Enabled(LateState(k), LateRun()[k], lag) && Next(LateState(k), LateRun()[k], budget, lag) == LateState(k + 1)
  {
    var s, s', r := LateState(k), LateState(k + 1), Next(LateState(k), LateRun()[k], budget, lag);
    assert r.store == s'.store && r.requests == s'.requests && r.log == s'.log;
  }

  lemma LateExecutes(budget: nat, lag: nat)
    requires lag > MINUTE && budget >= 4
    ensures Enabled(LateState(9), Execute(4), lag) && Next(LateState(9), Execute(4), budget, lag) == LateState(10)
  {
    var s', r := LateState(10), Next(LateState(9), Execute(4), budget, lag);
    assert r.store == s'.store && r.requests == s'.requests && r.log == s'.log;
  }

  lemma {:induction false} LateRuns(k: nat, budget: nat, lag: nat)
    requires k <= 10 && lag > MINUTE && budget >= 4
    ensures Runs(LateState(k), LateRun()[k..], budget, lag) && Run(LateState(k), LateRun()[k..], budget, lag) == LateState(10)
    decreases 10 - k
  {
    hide LateState, LateRun, Enabled, Next;
    TenSteps();
    if k < 10 {
      LateStep(k, budget, lag);
      LateRuns(k + 1, budget, lag);
      assert LateRun()[k..][1..] == LateRun()[k + 1..];
    }
  }

  lemma TenSteps()
    ensures |LateRun()| == 10
  {
  }

  /** With any greater lag the counter of the minute can expire first, and a fourth reservation of the
      minute is accepted.  So a minute is exactly the delay that the limit of three can bear. */
  lemma LongerLagBreaksTheLimit(budget: nat, lag: nat)
    requires lag > MINUTE && budget >= 4
    ensures Runs(START, LateRun(), budget, lag)
    ensures Total(Run(START, LateRun(), budget, lag).log, MinuteKey(0, 0)) == 4
  {
    LateRuns(0, budget, lag);
    assert LateRun()[0..] == LateRun();
    LateTotal();
  }

  lemma LateTotal()
    ensures Total(LateState(10).log, MinuteKey(0, 0)) == 4
  {
    var e := Ask(0, 0, 0, 1);
    var one, two, three, four := Accepted(1, e), Accepted(2, e), Accepted(3, e), Accepted(4, e);
    var key := MinuteKey(0, 0);
    TotalOfMore([], one, key);
    TotalOfMore([one], two, key);
    TotalOfMore([one, two], three, key);
    TotalOfMore([one, two, three], four, key);
    assert [] + [one] == [one] && [one] + [two] == [one, two] && [one, two] + [three] == [one, two, three];
  }

  // -------------------------------------------------------------------------
  // Paid calls
  // -------------------------------------------------------------------------

  ghost function Ids(log: seq<Accepted>): set<nat> {
    set i | 0 <= i < |log| :: log[i].id
  }

  ghost function Paid(s: State): set<nat> {
    set id | id in s.requests && s.requests[id].handler.Generating?
  }

  /** Reservations are accepted once, and only handlers that were told so go on to the paid call. */
  ghost predicate Covered(s: State) {
    && (forall id :: id in s.requests ==>
          && (id in Ids(s.log) <==> s.requests[id].script == Ran(true))
          && (s.requests[id].handler.Generating? ==> s.requests[id].script == Ran(true)))
    && Ids(s.log) <= s.requests.Keys
    && |Ids(s.log)| == |s.log|
  }

  lemma IdsOfMore(log: seq<Accepted>, entry: Accepted)
    ensures Ids(log + [entry]) == Ids(log) + {entry.id}
  {
    assert (log + [entry])[|log|] == entry;
    forall id | id in Ids(log) ensures id in Ids(log + [entry]) {
      var i :| 0 <= i < |log| && log[i].id == id;
      assert (log + [entry])[i].id == id;
    }
  }

  lemma StepCovers(s: State, step: Step, budget: nat, lag: nat)
    requires Covered(s) && Enabled(s, step, lag)
    ensures Covered(Next(s, step, budget, lag))
  {
    hide Ids, Accepts, Charged, AskAt;
    if step.Execute? {
      IdsOfMore(s.log, Accepted(step.id, s.requests[step.id].ask));
    }
  }

  lemma {:induction false} RunCovers(s: State, steps: seq<Step>, budget: nat, lag: nat)
    requires Covered(s) && Runs(s, steps, budget, lag)
    ensures Covered(Run(s, steps, budget, lag))
    decreases |steps|
  {
    hide Covered, Enabled, Next;
    if steps != [] {
      StepCovers(s, steps[0], budget, lag);
      RunCovers(Next(s, steps[0], budget, lag), steps[1..], budget, lag);
    }
  }

  lemma SubsetSize(a: set<nat>, b: set<nat>)
    requires a <= b
    ensures |a| <= |b|
  {
    assert b == a + (b - a);
  }

  /** Whatever is lost or late, the paid calls never outnumber the accepted reservations, and each has
      one of its own. */
  lemma PaidCallsAreReserved(steps: seq<Step>, budget: nat, lag: nat)
    requires Runs(START, steps, budget, lag)
    ensures var s := Run(START, steps, budget, lag);
      Paid(s) <= Ids(s.log) && |Paid(s)| <= |s.log|
  {
    assert Covered(START) by {
      assert Ids([]) == {};
    }
    hide Runs, Run;
    RunCovers(START, steps, budget, lag);
    var s := Run(START, steps, budget, lag);
    SubsetSize(Paid(s), Ids(s.log));
  }

  /** The answer of the script decides: a handler that gets it goes on to the paid call exactly if the reservation
      was accepted, and one that gave up does not, whatever the script did or will do. */
  lemma AnswerDecides(s: State, id: nat, budget: nat, lag: nat)
    ensures Enabled(s, Deliver(id), lag) ==>
      var h := Next(s, Deliver(id), budget, lag).requests[id].handler;
      (h.Generating? <==> s.requests[id].script == Ran(true)) && (h.Refused? <==> s.requests[id].script == Ran(false))
    ensures Enabled(s, GiveUp(id), lag) ==>
      var r := Next(s, GiveUp(id), budget, lag).requests[id];
      r.handler.Unavailable? && r.script == s.requests[id].script
  {
  }

  /** Either way it is decided once and for all. */
  lemma {:induction false} DecidedOnce(s: State, steps: seq<Step>, budget: nat, lag: nat, id: nat)
    requires Runs(s, steps, budget, lag) && id in s.requests && !s.requests[id].handler.Waiting?
    ensures var s' := Run(s, steps, budget, lag); id in s'.requests && s'.requests[id].handler == s.requests[id].handler
    decreases |steps|
  {
    if steps != [] {
      hide Accepts, Charged;
      var s1 := Next(s, steps[0], budget, lag);
      assert id in s1.requests && s1.requests[id].handler == s.requests[id].handler;
      hide Next, Enabled;
      DecidedOnce(s1, steps[1..], budget, lag, id);
    }
  }

  // -------------------------------------------------------------------------
  // The request body
  // -------------------------------------------------------------------------

  datatype Body = TooLong | Broken | Read(bytes: seq<nat>)

  const MAX_BODY_BYTES: nat := 8_192

  function Joined(parts: seq<seq<nat>>): seq<nat> {
    if parts == [] then [] else Joined(parts[..|parts| - 1]) + parts[|parts| - 1]
  }

  /** The bytes of all parts, in order. */
  lemma {:induction false} JoinedInOrder(a: seq<seq<nat>>, b: seq<seq<nat>>, part: seq<nat>)
    ensures Joined([part]) == part && Joined(a + b) == Joined(a) + Joined(b)
    decreases |b|
  {
    assert [part][..0] == [] && [] + part == part;
    if b == [] {
      assert a + b == a && Joined(a) + [] == Joined(a);
    } else {
      var n := |b| - 1;
      assert (a + b)[..|a + b| - 1] == a + b[..n];
      JoinedInOrder(a, b[..n], part);
      assert Joined(a) + (Joined(b[..n]) + b[n]) == Joined(a) + Joined(b[..n]) + b[n];
    }
  }

  /** The reading loop: the body is refused as soon as it is too long, so exactly when all that arrives
      is.  `breaks` is whether reading fails after the parts. */
  method ReadBody(parts: seq<seq<nat>>, breaks: bool) returns (body: Body)
    ensures body == if |Joined(parts)| > MAX_BODY_BYTES then TooLong else if breaks then Broken else Read(Joined(parts))
  {
    var chunks, size := [], 0;
    assert parts[..0] == [];
    for i := 0 to |parts|
      invariant size == |Joined(parts[..i])| <= MAX_BODY_BYTES && chunks == parts[..i]
    {
      size := size + |parts[i]|;
      assert parts[..i + 1][..i] == parts[..i];
      if size > MAX_BODY_BYTES {
        JoinedGrows(parts, i + 1);
        return TooLong;
      }
      chunks := chunks + [parts[i]];
    }
    assert parts[..|parts|] == parts;
    body := if breaks then Broken else Read(Joined(chunks));
  }

  lemma {:induction false} JoinedGrows(parts: seq<seq<nat>>, n: nat)
    requires n <= |parts|
    ensures |Joined(parts[..n])| <= |Joined(parts)|
    decreases |parts|
  {
    if n == |parts| {
      assert parts[..n] == parts;
    } else {
      JoinedGrows(parts[..|parts| - 1], n);
      assert parts[..|parts| - 1][..n] == parts[..n];
    }
  }

  // -------------------------------------------------------------------------
  // The request handler
  // -------------------------------------------------------------------------

  /** A request as the handler sees it: whether the method, origin and content type are right, the
      token, and the body in the parts in which it arrives, with or without an error after them. */
  datatype Incoming = Incoming(post: bool, originAllowed: bool, isJson: bool, token: Option<nat>,
                               hasBody: bool, parts: seq<seq<nat>>, breaks: bool)

  /** What the services answer; nothing means that they throw.  `prompt` reads the trimmed prompt out
      of a body: nothing if the body is malformed, and no bytes if there is no prompt. */
  datatype Services = Services(authenticate: nat -> Option<nat>, prompt: seq<nat> -> Option<seq<nat>>,
                               reserve: (nat, nat) -> Option<bool>, generate: seq<nat> -> bool)

  datatype Called = Authenticate | Reserve(user: nat, tokens: nat) | Generate(prompt: seq<nat>)

  const MAX_PROMPT_BYTES: nat := 4_096
  const MAX_OUTPUT_TOKENS: nat := 2_048
  const NO_USER: nat := 0

  /** A request that gets past method, origin, content type and sign-in. */
  predicate SignedIn(x: Incoming, v: Services) {
    && x.post && x.originAllowed && x.isJson && x.token.Some?
    && v.authenticate(x.token.value).Some? && v.authenticate(x.token.value).value != 0
  }

  /** With a body of at most 8192 bytes that can be read and holds a prompt of at most 4096. */
  predicate Ready(x: Incoming, v: Services) {
    && SignedIn(x, v) && x.hasBody && |Joined(x.parts)| <= 8_192 && !x.breaks
    && v.prompt(Joined(x.parts)).Some? && 0 < |v.prompt(Joined(x.parts)).value| <= 4_096
  }

  /** What the reservation answers for it: for the prompt, the system prompt, 2048 tokens of answer and 256 more. */
  function Reserved(x: Incoming, v: Services, system: nat): Option<bool>
    requires Ready(x, v)
  {
    v.reserve(v.authenticate(x.token.value).value, system + |v.prompt(Joined(x.parts)).value| + 2_304)
  }

  /** `createDraftHandler`.  A paid call is made only for an authenticated user, for a prompt within
      its limit, after a reservation of its tokens was accepted, and at most once. */
  method Handle(x: Incoming, v: Services, system: nat) returns (status: nat, called: seq<Called>)
    ensures forall c :: c in called && c.Generate? ==>
      && x.post && x.originAllowed && x.isJson && x.token.Some? && v.authenticate(x.token.value).Some?
      && called == [Authenticate, Reserve(v.authenticate(x.token.value).value, system + |c.prompt| + MAX_OUTPUT_TOKENS + 256), c]
      && v.reserve(called[1].user, called[1].tokens) == Some(true)
      && |Joined(x.parts)| <= MAX_BODY_BYTES && !x.breaks
      && v.prompt(Joined(x.parts)) == Some(c.prompt) && 0 < |c.prompt| <= MAX_PROMPT_BYTES
    ensures forall c :: c in called && c.Reserve? ==> c.user != NO_USER && c.tokens <= system + MAX_PROMPT_BYTES + MAX_OUTPUT_TOKENS + 256
    ensures status == 200 <==> |called| == 3 && called[2].Generate? && v.generate(called[2].prompt)
    ensures status == 502 <==> |called| == 3 && called[2].Generate? && !v.generate(called[2].prompt)
    ensures status == 429 <==> |called| == 2 && called[1].Reserve? && v.reserve(called[1].user, called[1].tokens) == Some(false)
    ensures status == 503 <==> |called| == 2 && called[1].Reserve? && v.reserve(called[1].user, called[1].tokens) == None
    ensures status == 413 <==>
      && x.post && x.originAllowed && x.isJson && x.token.Some? && x.hasBody
      && v.authenticate(x.token.value).Some? && v.authenticate(x.token.value).value != NO_USER
      && (|Joined(x.parts)| > MAX_BODY_BYTES
          || (!x.breaks && v.prompt(Joined(x.parts)).Some? && |v.prompt(Joined(x.parts)).value| > MAX_PROMPT_BYTES))
    ensures called != [] ==> called[0] == Authenticate && x.token.Some?
    // The exact cause of each answer.
    ensures status == 405 <==> !x.post
    ensures status == 403 <==> x.post && !x.originAllowed
    ensures status == 415 <==> x.post && x.originAllowed && !x.isJson
    ensures status == 401 <==> x.post && x.originAllowed && x.isJson && !SignedIn(x, v)
    ensures status in [400, 413] <==> SignedIn(x, v) && !Ready(x, v)
    ensures status == 400 <==>
      && SignedIn(x, v)
      && (!x.hasBody || (|Joined(x.parts)| <= 8_192 && (x.breaks || v.prompt(Joined(x.parts)) in [None, Some([])])))
    ensures status in [200, 429, 502, 503] <==> Ready(x, v)
    ensures Ready(x, v) && Reserved(x, v, system).None? ==> status == 503
    ensures Ready(x, v) && Reserved(x, v, system) == Some(false) ==> status == 429
    ensures Ready(x, v) && Reserved(x, v, system) == Some(true) ==> status == if v.generate(v.prompt(Joined(x.parts)).value) then 200 else 502
    // A request that meets all guards and whose reservation is accepted leads to one paid call.
    ensures |called| == 3 <==> Ready(x, v) && Reserved(x, v, system) == Some(true)
    ensures |called| == 3 ==> called[2] == Generate(v.prompt(Joined(x.parts)).value)
    ensures |called| == 2 <==> Ready(x, v) && Reserved(x, v, system) != Some(true)
  {
    hide Joined;
    called := [];
    if !x.post { return 405, called; }
    if !x.originAllowed { return 403, called; }
    if !x.isJson { return 415, called; }
    if x.token.None? { return 401, called; }
    called := [Authenticate];
    var user := v.authenticate(x.token.value);
    if user.None? || user.value == NO_USER { return 401, called; }
    if !x.hasBody { return 400, called; }
    var body := ReadBody(x.parts, x.breaks);
    if body.TooLong? { return 413, called; }
    if body.Broken? { return 400, called; }
    var prompt := v.prompt(body.bytes);
    if prompt.None? || prompt.value == [] { return 400, called; }
    if |prompt.value| > MAX_PROMPT_BYTES { return 413, called; }
    var reservation := system + |prompt.value| + MAX_OUTPUT_TOKENS + 256;
    called := [Authenticate, Reserve(user.value, reservation)];
    var accepted := v.reserve(user.value, reservation);
    if accepted.None? { return 503, called; }
    if !accepted.value { return 429, called; }
    called := [Authenticate, Reserve(user.value, reservation), Generate(prompt.value)];
    status := if v.generate(prompt.value) then 200 else 502;
  }
}
