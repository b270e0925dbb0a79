/** `RRuntime`, the page's side of the browser runtime (`website/src/runtime/r-runtime.ts`).

  JavaScript runs one call at a time, except that the status callback may call back into the
  runtime.  A call that is waiting for its callback to return is a frame on `stack`, so the
  steps below cover every way in which requests, responses, timers, worker failures and
  resets can interleave, with any amount of re-entrance.
 */
module RuntimeClient {
  import opened Wrappers
  import opened RuntimeProtocol

  const MAX_PENDING := 16

  type WorkerId = nat

  datatype Reason =
    | TimedOut
    | ResetByUser
    | Disposed
    | WorkerFailed
    | SessionReset(message: string)
    | EvaluationFailed(message: string)

  datatype Outcome = Resolved(payload: Payload) | Rejected(reason: Reason)

  /** How a promise settled, when, and the worker whose response settled it, if one did. */
  datatype Settlement = Settlement(outcome: Outcome, at: int, from: Option<WorkerId>)

  datatype Timer = Timer(id: nat, deadline: int)

  datatype Post = Post(worker: WorkerId, id: nat, command: Command, generation: nat)

  /** A call suspended in its status callback, and what it does when the callback returns. */
  datatype Frame =
    | Loading(command: Command)
    | Running(id: nat, generation: nat, command: Command)
    | TimeoutReset(id: nat)
    | DisposeReset
    | Tail

  /** The fields of the class, followed by what it did to its surroundings: workers started,
      live timers, messages posted, promises settled, settle calls on a settled promise. */
  datatype Client = Client(
    worker: Option<WorkerId>,
    nextId: nat,
    generation: nat,
    pending: map<nat, nat>,
    timeoutMs: nat,
    workers: nat,
    timers: map<nat, Timer>,
    handles: nat,
    due: map<nat, int>,
    posts: seq<Post>,
    settled: map<nat, Settlement>,
    settledTwice: set<nat>,
    stack: seq<Frame>,
    now: int)

  function Fresh(timeoutMs: nat): Client {
    Client(None, 0, 0, map[], timeoutMs, 0, map[], 0, map[], [], map[], {}, [], 0)
  }

  // -------------------------------------------------------------------------
  // Steps
  // -------------------------------------------------------------------------

  datatype Step =
    | Request(command: Command)
    | Reset
    | Dispose
    | CallbackReturns
    | Response(worker: WorkerId, id: nat, reply: Reply)
    | TimerFires(handle: nat)
    | WorkerError
    | ClockAdvances(to: int)

  /** Public calls are possible at any time, also from inside a callback.  Events wait for the
      running call to end, a worker answers only what was posted to it, and the clock does not
      pass a timer that is still live. */
  ghost predicate Enabled(s: Client, step: Step) {
    match step
    case Request(_) => true
    case Reset => true
    case Dispose => true
    case CallbackReturns => s.stack != []
    case Response(w, id, _) => s.stack == [] && Posted(s, w, id)
    case TimerFires(h) => s.stack == [] && h in s.timers && s.timers[h].deadline <= s.now
    case WorkerError => s.stack == []
    case ClockAdvances(t) => s.stack == [] && s.now <= t && forall h :: h in s.timers ==> t <= s.timers[h].deadline
  }

  ghost predicate Posted(s: Client, w: WorkerId, id: nat) {
    exists p :: p in s.posts && p.worker == w && p.id == id
  }

  function Push(s: Client, f: Frame): Client {
    s.(stack := s.stack + [f])
  }

  /** `resolve` or `reject`: only the first call has an effect. */
  function Settle(s: Client, id: nat, outcome: Outcome, from: Option<WorkerId>): Client {
    if id in s.settled then s.(settledTwice := s.settledTwice + {id})
    else s.(settled := s.settled[id := Settlement(outcome, s.now, from)])
  }

  /** The second half of `request` up to its "running" callback. */
  function BeginRunning(s: Client, command: Command): Client {
    var id := s.nextId + 1;
    Push(s.(nextId := id), Running(id, s.generation, command))
  }

  function BeginRequest(s: Client, command: Command): Client {
    if |s.pending| >= MAX_PENDING then s
    else if s.worker.Some? then BeginRunning(s, command)
    else Push(s, Loading(command))
  }

  /** The promise executor: start the timer, register, and post unless the session changed. */
  function Register(s: Client, id: nat, generation: nat, command: Command): Client {
    var h := s.handles;
    var deadline := s.now + s.timeoutMs;
    var s' := s.(handles := h + 1,
                 timers := s.timers[h := Timer(id, deadline)],
                 due := s.due[id := deadline],
                 pending := s.pending[id := h]);
    if generation != s.generation || s.worker.None? then s'
    else s'.(posts := s.posts + [Post(s.worker.value, id, command, generation)])
  }

  /** `resetWorker` up to its "reset" callback, then the frame of its caller. */
  function ResetWorker(s: Client, reason: Reason, after: Frame): Client {
    Push(RejectAll(s.(generation := s.generation + 1, worker := None), reason), after)
  }

  function RejectAll(s: Client, reason: Reason): Client {
    RejectSome(s, reason, s.pending.Keys).(pending := map[])
  }

  /** The promises of `ids` rejected and their timers cleared. */
  function RejectSome(s: Client, reason: Reason, ids: set<nat>): Client
    requires ids <= s.pending.Keys
  {
    s.(timers := Cleared(s.timers, s.pending, ids),
       settled := SettledAll(s.settled, ids, Settlement(Rejected(reason), s.now, None)),
       settledTwice := s.settledTwice + ids * s.settled.Keys)
  }

  function Cleared(timers: map<nat, Timer>, pending: map<nat, nat>, ids: set<nat>): map<nat, Timer>
    requires ids <= pending.Keys
  {
    timers - set id | id in ids :: pending[id]
  }

  function SettledAll(settled: map<nat, Settlement>, ids: set<nat>, r: Settlement): map<nat, Settlement> {
    (map id | id in ids :: r) + settled
  }

  lemma NothingRejected(s: Client, reason: Reason)
    ensures RejectSome(s, reason, {}) == s
  {
    var s1 := RejectSome(s, reason, {});
    assert s1.timers == s.timers && s1.settled == s.settled && s1.settledTwice == s.settledTwice;
  }

  lemma RejectOneMore(s: Client, reason: Reason, ids: set<nat>, id: nat)
    requires ids + {id} <= s.pending.Keys && id !in ids
    ensures var s1 := RejectSome(s, reason, ids);
      RejectSome(s, reason, ids + {id}) ==
      Settle(s1.(timers := s1.timers - {s.pending[id]}), id, Rejected(reason), None)
  {
    OneMoreCleared(s.timers, s.pending, ids, id);
    OneMoreSettled(s.settled, ids, id, Settlement(Rejected(reason), s.now, None));
    OneMoreTwice(s.settledTwice, s.settled.Keys, ids, id);
    hide Cleared, SettledAll;
  }

  lemma OneMoreCleared(timers: map<nat, Timer>, pending: map<nat, nat>, ids: set<nat>, id: nat)
    requires ids + {id} <= pending.Keys
    ensures Cleared(timers, pending, ids + {id}) == Cleared(timers, pending, ids) - {pending[id]}
  {
    assert (set k | k in ids + {id} :: pending[k]) == (set k | k in ids :: pending[k]) + {pending[id]};
  }

  lemma OneMoreSettled(settled: map<nat, Settlement>, ids: set<nat>, id: nat, r: Settlement)
    requires id !in ids
    ensures id in SettledAll(settled, ids, r) <==> id in settled
    ensures SettledAll(settled, ids + {id}, r) ==
      if id in settled then SettledAll(settled, ids, r) else SettledAll(settled, ids, r)[id := r]
  {
  }

  lemma OneMoreTwice(twice: set<nat>, settled: set<nat>, ids: set<nat>, id: nat)
    ensures twice + (ids + {id}) * settled ==
      if id in settled then twice + ids * settled + {id} else twice + ids * settled
  {
  }

  function Receive(s: Client, w: WorkerId, id: nat, reply: Reply): Client {
    if id !in s.pending then s
    else
      var s1 := s.(timers := s.timers - {s.pending[id]}, pending := s.pending - {id});
      match reply
      case Failure(message, fatal) =>
        var s2 := Settle(s1, id, Rejected(EvaluationFailed(message)), Some(w));
        if fatal then ResetWorker(s2, SessionReset(message), Tail) else Push(s2, Tail)
      case Success(payload) =>
        Push(Settle(s1, id, Resolved(payload), Some(w)), Tail)
  }

  function FireTimer(s: Client, h: nat): Client
    requires h in s.timers
  {
    var id := s.timers[h].id;
    var s1 := s.(timers := s.timers - {h});
    if id !in s.pending then s1
    else ResetWorker(s1.(pending := s.pending - {id}), TimedOut, TimeoutReset(id))
  }

  function Resume(s: Client): Client
    requires s.stack != []
  {
    var top := s.stack[|s.stack| - 1];
    var s1 := s.(stack := s.stack[..|s.stack| - 1]);
    match top
    case Loading(command) => BeginRunning(s1.(worker := Some(s.workers), workers := s.workers + 1), command)
    case Running(id, generation, command) => Register(s1, id, generation, command)
    case TimeoutReset(id) => Settle(s1, id, Rejected(TimedOut), None)
    case DisposeReset => Push(s1, Tail)
    case Tail => s1
  }

  ghost function Next(s: Client, step: Step): Client
    requires Enabled(s, step)
  {
    match step
    case Request(command) => BeginRequest(s, command)
    case Reset => ResetWorker(s, ResetByUser, Tail)
    case Dispose => ResetWorker(s, Disposed, DisposeReset)
    case CallbackReturns => Resume(s)
    case Response(w, id, reply) => Receive(s, w, id, reply)
    case TimerFires(h) => FireTimer(s, h)
    case WorkerError => ResetWorker(s, WorkerFailed, Tail)
    case ClockAdvances(t) => s.(now := t)
  }

  /** Every step of `steps` is possible when it is taken. */
  ghost predicate Possible(s: Client, steps: seq<Step>)
    decreases |steps|
  {
    steps == [] || (Enabled(s, steps[0]) && Possible(Next(s, steps[0]), steps[1..]))
  }

  ghost function After(s: Client, steps: seq<Step>): Client
    requires Possible(s, steps)
    decreases |steps|
  {
    if steps == [] then s else After(Next(s, steps[0]), steps[1..])
  }

  // -------------------------------------------------------------------------
  // The class
  // -------------------------------------------------------------------------

  class RRuntime {
    var worker: Option<WorkerId>
    var nextId: nat
    var generation: nat
    var pending: map<nat, nat>
    const timeoutMs: nat
    // Surroundings
    var workers: nat
    var timers: map<nat, Timer>
    var handles: nat
    var due: map<nat, int>
    var posts: seq<Post>
    var settled: map<nat, Settlement>
    var settledTwice: set<nat>
    var stack: seq<Frame>
    var now: int

    ghost function View(): Client
      reads this
    {
      Client(worker, nextId, generation, pending, timeoutMs, workers, timers, handles, due, posts,
             settled, settledTwice, stack, now)
    }

    constructor (timeout: Option<nat>)
      ensures View() == Fresh(if timeout.Some? then timeout.value else 15_000)
    {
      timeoutMs := if timeout.Some? then timeout.value else 15_000;
      worker, nextId, generation, pending := None, 0, 0, map[];
      workers, timers, handles, due, posts := 0, map[], 0, map[], [];
      settled, settledTwice, stack, now := map[], {}, [], 0;
    }

    method SettlePromise(id: nat, outcome: Outcome, from: Option<WorkerId>)
      modifies this`settled, this`settledTwice
      ensures View() == Settle(old(View()), id, outcome, from)
    {
      if id in settled {
        settledTwice := settledTwice + {id};
      } else {
        settled := settled[id := Settlement(outcome, now, from)];
      }
    }

    /** `request` up to its first status callback. */
    method RequestCall(command: Command)
      modifies this
      ensures View() == BeginRequest(old(View()), command)
    {
      if |pending| >= MAX_PENDING {
        return;
      }
      if worker.Some? {
        StartRunning(command);
      } else {
        stack := stack + [Loading(command)];
      }
    }

    method StartRunning(command: Command)
      modifies this`nextId, this`stack
      ensures View() == BeginRunning(old(View()), command)
    {
      nextId := nextId + 1;
      stack := stack + [Running(nextId, generation, command)];
    }

    /** The innermost status callback returns and its caller goes on. */
    method CallbackReturned()
      requires stack != []
      requires CurrentSessionHasWorker(stack[|stack| - 1], generation, worker)
      modifies this
      ensures View() == Resume(old(View()))
    {
      var top := stack[|stack| - 1];
      stack := stack[..|stack| - 1];
      match top {
        case Loading(command) => WorkerStarted(command);
        case Running(id, captured, command) => Executor(id, captured, command);
        case TimeoutReset(id) => SettlePromise(id, Rejected(TimedOut), None);
        case DisposeReset => stack := stack + [Tail];
        case Tail =>
      }
    }

    method WorkerStarted(command: Command)
      modifies this`worker, this`workers, this`nextId, this`stack
      ensures View() == BeginRunning(old(View()).(worker := Some(old(workers)), workers := old(workers) + 1), command)
    {
      worker := Some(workers);
      workers := workers + 1;
      StartRunning(command);
    }

    method Executor(id: nat, captured: nat, command: Command)
      requires captured == generation ==> worker.Some?
      modifies this`timers, this`due, this`pending, this`handles, this`posts
      ensures View() == Register(old(View()), id, captured, command)
    {
      timers := timers[handles := Timer(id, now + timeoutMs)];
      due := due[id := now + timeoutMs];
      pending := pending[id := handles];
      handles := handles + 1;
      if captured != generation {
        return;
      }
      posts := posts + [Post(worker.value, id, command, captured)];
    }

    /** `resetWorker` */
    method ResetCurrentWorker(reason: Reason, after: Frame)
      modifies this
      ensures View() == ResetWorker(old(View()), reason, after)
    {
      generation := generation + 1;
      worker := None;
      RejectPending(reason);
      pending := map[];
      stack := stack + [after];
    }

    /** The loop of `resetWorker` over the pending map. */
    method RejectPending(reason: Reason)
      modifies this`timers, this`settled, this`settledTwice
      ensures View() == RejectSome(old(View()), reason, pending.Keys)
    {
      var rest := pending.Keys;
      ghost var done: set<nat> := {};
      NothingRejected(View(), reason);
      while rest != {}
        invariant done + rest == pending.Keys && done !! rest
        invariant View() == RejectSome(old(View()), reason, done)
        decreases rest
      {
        var id :| id in rest;
        RejectOneMore(old(View()), reason, done, id);
        timers := timers - {pending[id]};
        SettlePromise(id, Rejected(reason), None);
        rest := rest - {id};
        done := done + {id};
      }
      assert done == pending.Keys;
    }

    method ResetCall()
      modifies this
      ensures View() == ResetWorker(old(View()), ResetByUser, Tail)
    {
      ResetCurrentWorker(ResetByUser, Tail);
    }

    method DisposeCall()
      modifies this
      ensures View() == ResetWorker(old(View()), Disposed, DisposeReset)
    {
      ResetCurrentWorker(Disposed, DisposeReset);
    }

    method ReceiveMessage(w: WorkerId, id: nat, reply: Reply)
      modifies this
      ensures View() == Receive(old(View()), w, id, reply)
    {
      if id !in pending {
        return;
      }
      timers := timers - {pending[id]};
      pending := pending - {id};
      match reply {
        case Failure(message, fatal) =>
          SettlePromise(id, Rejected(EvaluationFailed(message)), Some(w));
          if fatal {
            ResetCurrentWorker(SessionReset(message), Tail);
          } else {
            stack := stack + [Tail];
          }
        case Success(payload) =>
          SettlePromise(id, Resolved(payload), Some(w));
          stack := stack + [Tail];
      }
    }

    method TimerFired(h: nat)
      requires h in timers
      modifies this
      ensures View() == FireTimer(old(View()), h)
    {
      var id := timers[h].id;
      timers := timers - {h};
      if id !in pending {
        return;
      }
      pending := pending - {id};
      ResetCurrentWorker(TimedOut, TimeoutReset(id));
    }
  }

  // -------------------------------------------------------------------------
  // What every step keeps
  // -------------------------------------------------------------------------

  /** The requests whose promise waits for a frame: not registered yet, or timed out and about
      to be rejected. */
  ghost function Held(stack: seq<Frame>): multiset<nat> {
    if stack == [] then multiset{}
    else Held(stack[..|stack| - 1]) + HeldBy(stack[|stack| - 1])
  }

  ghost function HeldBy(f: Frame): multiset<nat> {
    match f
    case Running(id, _, _) => multiset{id}
    case TimeoutReset(id) => multiset{id}
    case _ => multiset{}
  }

  /** In how many places a request is: pending, settled, held by frames. */
  ghost function Places(s: Client, id: nat): nat {
    (if id in s.pending then 1 else 0) + (if id in s.settled then 1 else 0) + Held(s.stack)[id]
  }

  /** Each accepted request is in exactly one place, and no promise is settled a second time. */
  ghost predicate Accounted(s: Client) {
    && (forall id: nat :: Places(s, id) == if 1 <= id <= s.nextId then 1 else 0)
    && s.settledTwice == {}
  }

  /** A request has a live timer exactly when it is pending; the two maps are inverse. */
  ghost predicate TimersArePending(s: Client) {
    && (forall id :: id in s.pending ==> s.pending[id] in s.timers && s.timers[s.pending[id]].id == id)
    && (forall h :: h in s.timers ==> h < s.handles && s.timers[h].id in s.pending && s.pending[s.timers[h].id] == h)
  }

  /** No timer is overdue, and no promise settles after the deadline of its timer. */
  ghost predicate Timely(s: Client) {
    && (forall h :: h in s.timers ==>
          s.now <= s.timers[h].deadline && s.timers[h].id in s.due && s.due[s.timers[h].id] == s.timers[h].deadline)
    && (forall id :: id in s.settled ==> id in s.due && s.settled[id].at <= s.due[id])
    && (forall f :: f in s.stack && f.TimeoutReset? ==> f.id in s.due && s.now <= s.due[f.id])
  }

  /** `this.worker!` is never undefined: a suspended request of the current session has a worker. */
  ghost predicate CurrentSessionHasWorker(f: Frame, generation: nat, worker: Option<WorkerId>) {
    f.Running? && f.generation == generation ==> worker.Some?
  }

  /** Every request is posted at most once, to one worker, and not before it is registered. */
  ghost predicate PostedOnce(s: Client) {
    && (forall p :: p in s.posts ==> p.worker < s.workers && 1 <= p.id <= s.nextId && p.generation <= s.generation)
    && (forall i, j :: 0 <= i < j < |s.posts| ==> s.posts[i].id != s.posts[j].id)
    && (forall p, f :: p in s.posts && f in s.stack && f.Running? ==> p.id != f.id)
    && (s.worker.Some? ==> s.worker.value < s.workers)
    && (forall f :: f in s.stack && f.Running? ==>
          1 <= f.id <= s.nextId && f.generation <= s.generation && CurrentSessionHasWorker(f, s.generation, s.worker))
  }

  /** Only a posted request is settled by a response, and only by the worker it was posted to. */
  ghost predicate AnsweredByItsWorker(s: Client) {
    forall id :: id in s.settled ==>
      && (s.settled[id].from.Some? ==> Posted(s, s.settled[id].from.value, id))
      && (s.settled[id].outcome.Resolved? ==> s.settled[id].from.Some?)
  }

  ghost predicate Sound(s: Client) {
    Accounted(s) && TimersArePending(s) && Timely(s) && PostedOnce(s) && AnsweredByItsWorker(s)
  }
}
