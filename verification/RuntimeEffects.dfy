/** What the steps of `RRuntime` do, read off its fields: which of them end the session and what then becomes of
    the worker, the timers and the pending requests, and what the others leave as it was. */
module RuntimeEffects {
  import opened Wrappers
  import opened RuntimeProtocol
  import opened RuntimeClient
  import opened RuntimeSafety
  import opened RuntimeRuns

  /** The worker is gone, the generation has advanced, no request is pending and no timer is live; every request
      that was pending, but for those in `apart`, was rejected at once for this reason. */
  ghost predicate SessionEnds(s: Client, s': Client, reason: Reason, apart: set<nat>) {
    && s'.worker.None? && s'.generation == s.generation + 1
    && s'.pending == map[] && s'.timers == map[]
    && (forall id :: id in s.pending && id !in apart ==>
          id in s'.settled && s'.settled[id] == Settlement(Rejected(reason), s.now, None))
    && (forall id :: id !in s.pending ==> (id in s'.settled <==> id in s.settled))
    && (forall id :: id in s.settled ==> id in s'.settled && s'.settled[id] == s.settled[id])
    && Unconcerned(s, s') && s'.posts == s.posts && s'.workers == s.workers && s'.nextId == s.nextId
  }

  ghost predicate Unconcerned(s: Client, s': Client) {
    s'.now == s.now && s'.due == s.due && s'.timeoutMs == s.timeoutMs && s'.handles == s.handles
  }

  /** The session goes on as it was, apart from pending requests, timers, settlements and suspended calls. */
  ghost predicate SessionStays(s: Client, s': Client) {
    && s'.worker == s.worker && s'.generation == s.generation && s'.workers == s.workers
    && s'.posts == s.posts && s'.nextId == s.nextId && Unconcerned(s, s')
  }

  /** What is pending is not settled and has its own live timer, and there are no other timers. */
  ghost predicate Apart(s: Client) {
    && (forall id :: id in s.pending ==> id !in s.settled)
    && TimersArePending(s)
  }

  lemma SoundIsApart(s: Client)
    requires Sound(s)
    ensures Apart(s)
  {
    PendingIsNotSettled(s);
  }

  lemma ResetEnds(s: Client, reason: Reason, after: Frame)
    requires Apart(s)
    ensures SessionEnds(s, ResetWorker(s, reason, after), reason, {})
    ensures ResetWorker(s, reason, after).stack == s.stack + [after]
  {
    var s' := ResetWorker(s, reason, after);
    assert forall h :: h in s.timers ==> s.pending[s.timers[h].id] == h;
    assert s'.timers == map[];
  }

  /** A request leaves the pending ones. */
  function Without(s: Client, id: nat): Client
    requires id in s.pending
  {
    s.(timers := s.timers - {s.pending[id]}, pending := s.pending - {id})
  }

  lemma WithoutIsApart(s: Client, id: nat)
    requires Apart(s) && id in s.pending
    ensures Apart(Without(s, id))
  {
  }

  /** If one request was taken out before, the session ends for all others. */
  lemma EndsForOthers(s: Client, s1: Client, s': Client, reason: Reason, id: nat)
    requires Apart(s) && id in s.pending && SessionEnds(s1, s', reason, {})
    requires s1 == Without(s, id).(settled := s1.settled, settledTwice := s1.settledTwice)
    requires forall k :: k != id ==> (k in s1.settled <==> k in s.settled) && (k in s.settled ==> s1.settled[k] == s.settled[k])
    ensures SessionEnds(s, s', reason, {id})
    ensures id in s'.settled <==> id in s1.settled
    ensures id in s1.settled ==> s'.settled[id] == s1.settled[id]
  {
    hide TimersArePending;
  }

  // -------------------------------------------------------------------------
  // Responses
  // -------------------------------------------------------------------------

  /** A fatal response rejects its request with the error and all other pending ones because of the reset. */
  lemma FatalResponseEndsSession(s: Client, w: WorkerId, id: nat, message: string)
    requires Sound(s) && Enabled(s, Response(w, id, Failure(message, true))) && id in s.pending
    ensures var s' := Next(s, Response(w, id, Failure(message, true)));
      && SessionEnds(s, s', SessionReset(message), {id})
      && id in s'.settled && s'.settled[id] == Settlement(Rejected(EvaluationFailed(message)), s.now, Some(w))
      && s'.stack == s.stack + [Tail]
  {
    SoundIsApart(s);
    WithoutIsApart(s, id);
    var s2 := Settle(Without(s, id), id, Rejected(EvaluationFailed(message)), Some(w));
    var s' := ResetWorker(s2, SessionReset(message), Tail);
    assert Next(s, Response(w, id, Failure(message, true))) == s';
    hide Sound, ResetWorker, Enabled, Next;
    SettledIsApart(Without(s, id), id, Rejected(EvaluationFailed(message)), Some(w));
    ResetEnds(s2, SessionReset(message), Tail);
    assert s2.settled == s.settled[id := Settlement(Rejected(EvaluationFailed(message)), s.now, Some(w))];
    hide Apart, SessionEnds, TimersArePending;
    EndsForOthers(s, s2, s', SessionReset(message), id);
  }

  lemma SettledIsApart(s: Client, id: nat, outcome: Outcome, from: Option<WorkerId>)
    requires Apart(s) && id !in s.pending
    ensures Apart(Settle(s, id, outcome, from))
  {
  }

  /** Any other response settles its request, as it says, and nothing else. */
  lemma OtherResponseKeepsSession(s: Client, w: WorkerId, id: nat, reply: Reply)
    requires Sound(s) && Enabled(s, Response(w, id, reply)) && id in s.pending && !(reply.Failure? && reply.fatal)
    ensures var s' := Next(s, Response(w, id, reply));
      && SessionStays(s, s')
      && id !in s'.pending && s.pending[id] !in s'.timers
      && (forall k :: k != id ==> (k in s'.pending <==> k in s.pending) && (k in s.pending ==> s'.pending[k] == s.pending[k]))
      && (forall h :: h != s.pending[id] ==> (h in s'.timers <==> h in s.timers) && (h in s.timers ==> s'.timers[h] == s.timers[h]))
      && id in s'.settled && s'.settled[id] ==
           Settlement(if reply.Success? then Resolved(reply.payload) else Rejected(EvaluationFailed(reply.message)), s.now, Some(w))
      && (forall k :: k != id ==> (k in s'.settled <==> k in s.settled) && (k in s.settled ==> s'.settled[k] == s.settled[k]))
      && s'.stack == s.stack + [Tail]
  {
    SoundIsApart(s);
    hide Sound;
  }

  /** A response to a request that is not pending any more does nothing. */
  lemma StaleResponseDoesNothing(s: Client, w: WorkerId, id: nat, reply: Reply)
    requires Enabled(s, Response(w, id, reply)) && id !in s.pending
    ensures Next(s, Response(w, id, reply)) == s
  {
  }

  // -------------------------------------------------------------------------
  // Timers, worker failures, resets
  // -------------------------------------------------------------------------

  /** A timer that fires ends the session; its own request is rejected when the callback has returned. */
  lemma TimeoutEndsSession(s: Client, h: nat)
    requires Sound(s) && Enabled(s, TimerFires(h))
    ensures var s', id := Next(s, TimerFires(h)), s.timers[h].id;
      && id in s.pending && SessionEnds(s, s', TimedOut, {id}) && id !in s'.settled && s'.stack == [TimeoutReset(id)]
      && Enabled(s', CallbackReturns)
      && Next(s', CallbackReturns) == s'.(stack := [], settled := s'.settled[id := Settlement(Rejected(TimedOut), s.now, None)])
  {
    SoundIsApart(s);
    var id := s.timers[h].id;
    assert id in s.pending && s.pending[id] == h && id !in s.settled;
    WithoutIsApart(s, id);
    var s1 := Without(s, id);
    var s' := ResetWorker(s1, TimedOut, TimeoutReset(id));
    assert Next(s, TimerFires(h)) == s';
    ResetEnds(s1, TimedOut, TimeoutReset(id));
    hide Sound, ResetWorker, Next, TimersArePending;
    EndsForOthers(s, s1, s', TimedOut, id);
    hide Apart;
    TimeoutReturns(s', id);
  }

  lemma TimeoutReturns(s: Client, id: nat)
    requires s.stack == [TimeoutReset(id)] && id !in s.settled
    ensures Enabled(s, CallbackReturns)
    ensures Next(s, CallbackReturns) == s.(stack := [], settled := s.settled[id := Settlement(Rejected(TimedOut), s.now, None)])
  {
    assert Pop(s).stack == [];
  }

  lemma WorkerErrorEndsSession(s: Client)
    requires Sound(s) && Enabled(s, WorkerError)
    ensures SessionEnds(s, Next(s, WorkerError), WorkerFailed, {}) && Next(s, WorkerError).stack == s.stack + [Tail]
  {
    SoundIsApart(s);
    ResetEnds(s, WorkerFailed, Tail);
  }

  /** So do both public calls, from inside a callback too. */
  lemma ResetEndsSession(s: Client)
    requires Sound(s)
    ensures SessionEnds(s, Next(s, Reset), ResetByUser, {}) && Next(s, Reset).stack == s.stack + [Tail]
    ensures SessionEnds(s, Next(s, Dispose), Disposed, {}) && Next(s, Dispose).stack == s.stack + [DisposeReset]
  {
    SoundIsApart(s);
    ResetEnds(s, ResetByUser, Tail);
    ResetEnds(s, Disposed, DisposeReset);
  }

  /** The steps that end the session. */
  ghost predicate Ends(s: Client, step: Step) {
    || step.Reset? || step.Dispose? || step.WorkerError? || step.TimerFires?
    || (step.Response? && step.id in s.pending && step.reply.Failure? && step.reply.fatal)
  }

  /** They are the only ones: the generation advances with them and with no other, and the worker of a session
      that has one stays with every other step, unless a request that was loading brings a new one. */
  lemma EndsIff(s: Client, step: Step)
    requires Sound(s) && Enabled(s, step)
    ensures var s' := Next(s, step);
      && s'.generation == s.generation + (if Ends(s, step) then 1 else 0)
      && (Ends(s, step) ==> s'.worker.None? && s'.pending == map[] && s'.timers == map[] && s'.workers == s.workers && s'.posts == s.posts)
      && (Ends(s, step) || s'.worker == s.worker
          || (step.CallbackReturns? && Top(s).Loading? && s'.worker == Some(s.workers) && s'.workers == s.workers + 1))
  {
    match step
    case Response(w, id, reply) =>
      if id !in s.pending {
        StaleResponseDoesNothing(s, w, id, reply);
      } else if reply.Failure? && reply.fatal {
        FatalResponseEndsSession(s, w, id, reply.message);
      } else {
        OtherResponseKeepsSession(s, w, id, reply);
      }
    case TimerFires(h) => TimeoutEndsSession(s, h);
    case WorkerError => WorkerErrorEndsSession(s);
    case Reset => ResetEndsSession(s);
    case Dispose => ResetEndsSession(s);
    case Request(_) =>
    case CallbackReturns =>
    case ClockAdvances(_) =>
  }

  /** Whatever happens after it, none of the workers there were gets another message. */
  lemma EndedSessionGetsNoPosts(s: Client, step: Step, steps: seq<Step>, p: Post)
    requires Sound(s) && Enabled(s, step) && Ends(s, step) && Possible(Next(s, step), steps)
    requires p.worker < s.workers
    ensures p in After(Next(s, step), steps).posts <==> p in s.posts
  {
    EndsIff(s, step);
    hide Next, Sound, Enabled, Possible, After;
    RetiredWorkerGetsNoPosts(Next(s, step), steps, p.worker, p);
  }

  // -------------------------------------------------------------------------
  // Requests
  // -------------------------------------------------------------------------

  /** The worker is started when the "loading" callback returns, and the request goes on. */
  lemma LoadedGoesOn(s: Client, below: seq<Frame>, command: Command)
    requires s.stack == below + [Loading(command)]
    ensures Enabled(s, CallbackReturns)
    ensures Next(s, CallbackReturns) == s.(stack := below + [Running(s.nextId + 1, s.generation, command)],
        worker := Some(s.workers), workers := s.workers + 1, nextId := s.nextId + 1)
  {
    assert Pop(s).stack == below;
  }

  /** A request whose "running" callback returns in the same session is posted, and waits with its own timer. */
  lemma RunningIsPosted(s: Client, below: seq<Frame>, id: nat, command: Command)
    requires s.stack == below + [Running(id, s.generation, command)] && s.worker.Some?
    ensures Enabled(s, CallbackReturns)
    ensures Next(s, CallbackReturns) == s.(stack := below,
        posts := s.posts + [Post(s.worker.value, id, command, s.generation)],
        pending := s.pending[id := s.handles], handles := s.handles + 1,
        timers := s.timers[s.handles := Timer(id, s.now + s.timeoutMs)], due := s.due[id := s.now + s.timeoutMs])
  {
    assert Pop(s).stack == below;
  }

  lemma RequestGoesOn(s: Client, command: Command)
    requires |s.pending| < 16
    ensures Enabled(s, Request(command))
    ensures Next(s, Request(command)) ==
      if s.worker.Some? then s.(nextId := s.nextId + 1, stack := s.stack + [Running(s.nextId + 1, s.generation, command)])
      else s.(stack := s.stack + [Loading(command)])
  {
  }

  /** So a request whose callbacks call nothing is posted to the worker with the next identity; without a
      worker it brings a new one. */
  lemma RequestIsPosted(s: Client, command: Command) returns (steps: seq<Step>)
    requires |s.pending| < 16
    ensures steps == [Request(command), CallbackReturns] + if s.worker.Some? then [] else [CallbackReturns]
    ensures Possible(s, steps) && Requested(s, After(s, steps), command)
  {
    hide Next, Enabled, Requested;
    RequestGoesOn(s, command);
    var s0 := Next(s, Request(command));
    if s.worker.Some? {
      steps := [CallbackReturns] + [];
      PostedNext(s, s0, command);
    } else {
      steps := [CallbackReturns] + ([CallbackReturns] + []);
      LoadedGoesOn(s0, s.stack, command);
      var s1 := Next(s0, CallbackReturns);
      PostedNext(s, s1, command);
      OneStep(s0, CallbackReturns, [CallbackReturns] + []);
    }
    OneStep(s, Request(command), steps);
    steps := [Request(command)] + steps;
  }

  ghost predicate Requested(s: Client, s': Client, command: Command) {
    var id, worker := s.nextId + 1, if s.worker.Some? then s.worker.value else s.workers;
    && s'.posts == s.posts + [Post(worker, id, command, s.generation)]
    && s'.worker == Some(worker) && s'.workers == s.workers + (if s.worker.Some? then 0 else 1)
    && s'.nextId == id && s'.generation == s.generation && s'.stack == s.stack && s'.settled == s.settled
    && s'.pending == s.pending[id := s.handles] && s'.timers == s.timers[s.handles := Timer(id, s.now + s.timeoutMs)]
  }

  lemma PostedNext(s: Client, s1: Client, command: Command)
    requires s1 == s.(stack := s.stack + [Running(s.nextId + 1, s.generation, command)], nextId := s.nextId + 1, worker := s1.worker, workers := s1.workers)
    requires s1.worker == (if s.worker.Some? then s.worker else Some(s.workers))
    requires s1.workers == s.workers + if s.worker.Some? then 0 else 1
    ensures Possible(s1, [CallbackReturns] + []) && Requested(s, After(s1, [CallbackReturns] + []), command)
  {
    RunningIsPosted(s1, s.stack, s.nextId + 1, command);
    hide Next, Enabled;
    OneStep(s1, CallbackReturns, []);
  }

  lemma OneStep(s: Client, step: Step, steps: seq<Step>)
    requires Enabled(s, step) && Possible(Next(s, step), steps)
    ensures Possible(s, [step] + steps) && After(s, [step] + steps) == After(Next(s, step), steps)
  {
    hide Next, Enabled;
    assert ([step] + steps)[1..] == steps;
  }

  /** With sixteen pending, a request is refused and changes nothing. */
  lemma RequestIsRefused(s: Client, command: Command)
    ensures Next(s, Request(command)) == s <==> |s.pending| >= 16
  {
    if |s.pending| < 16 {
      assert |Next(s, Request(command)).stack| == |s.stack| + 1;
    }
  }

  /** Nothing but the clock changes when time passes. */
  lemma ClockOnlyAdvances(s: Client, t: int)
    requires Enabled(s, ClockAdvances(t))
    ensures Next(s, ClockAdvances(t)).now == t
    ensures Next(s, ClockAdvances(t)).(now := s.now) == s
  {
  }
}
