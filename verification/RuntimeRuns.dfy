/** Consequences for whole runs of `RRuntime`: deadlines, retired workers, revoked requests and the
    limit on pending requests. */
module RuntimeRuns {
  import opened Wrappers
  import opened RuntimeProtocol
  import opened RuntimeClient
  import opened RuntimeSafety

  /** With no call in progress, every request whose deadline has passed is settled, and was
      settled by then. */
  lemma SettledByDeadline(timeoutMs: nat, steps: seq<Step>, id: nat)
    requires Possible(Fresh(timeoutMs), steps)
    requires After(Fresh(timeoutMs), steps).stack == []
    requires 1 <= id <= After(Fresh(timeoutMs), steps).nextId
    ensures var s := After(Fresh(timeoutMs), steps);
      && id in s.due
      && (id !in s.settled ==> id in s.pending && s.now <= s.due[id])
      && (id in s.settled ==> s.settled[id].at <= s.due[id])
  {
    FreshIsSound(timeoutMs);
    RunsAreSound(Fresh(timeoutMs), steps);
    var s := After(Fresh(timeoutMs), steps);
    assert Places(s, id) == 1;
    assert Held(s.stack)[id] == 0;
  }

  // -------------------------------------------------------------------------
  // Workers that were let go
  // -------------------------------------------------------------------------

  /** A worker that exists but is not the current one. */
  ghost predicate Retired(s: Client, w: WorkerId) {
    w < s.workers && s.worker != Some(w)
  }

  /** A step keeps the current worker, drops it or starts a new one, and posts at most one
      message, to the current worker. */
  ghost predicate PostsToCurrent(s: Client, s': Client) {
    && (s'.worker == s.worker || s'.worker.None? || (s'.worker == Some(s.workers) && s'.workers == s.workers + 1))
    && s.workers <= s'.workers
    && (forall p :: p in s.posts ==> p in s'.posts)
    && (forall p :: p in s'.posts ==> p in s.posts || s.worker == Some(p.worker))
  }

  lemma ResetPosts(s: Client, reason: Reason, after: Frame)
    ensures ResetWorker(s, reason, after).posts == s.posts && ResetWorker(s, reason, after).workers == s.workers
    ensures ResetWorker(s, reason, after).worker.None?
  {
  }

  lemma ReceivePosts(s: Client, w: WorkerId, k: nat, reply: Reply)
    ensures PostsToCurrent(s, Receive(s, w, k, reply))
  {
    hide ResetWorker;
    if k in s.pending && reply.Failure? && reply.fatal {
      var s1 := s.(timers := s.timers - {s.pending[k]}, pending := s.pending - {k});
      ResetPosts(Settle(s1, k, Rejected(EvaluationFailed(reply.message)), Some(w)), SessionReset(reply.message), Tail);
    }
  }

  lemma ResumePosts(s: Client)
    requires s.stack != []
    ensures PostsToCurrent(s, Resume(s))
  {
  }

  lemma StepPostsToCurrent(s: Client, step: Step)
    requires Enabled(s, step)
    ensures PostsToCurrent(s, Next(s, step))
  {
    hide ResetWorker, Receive, Resume;
    match step
    case Request(command) =>
    case Reset => ResetPosts(s, ResetByUser, Tail);
    case Dispose => ResetPosts(s, Disposed, DisposeReset);
    case CallbackReturns => ResumePosts(s);
    case Response(w, k, reply) => ReceivePosts(s, w, k, reply);
    case TimerFires(h) =>
      var k := s.timers[h].id;
      ResetPosts(s.(timers := s.timers - {h}, pending := s.pending - {k}), TimedOut, TimeoutReset(k));
    case WorkerError => ResetPosts(s, WorkerFailed, Tail);
    case ClockAdvances(t) =>
  }

  lemma RetiredStep(s: Client, step: Step, w: WorkerId, p: Post)
    requires Enabled(s, step) && Retired(s, w)
    ensures Retired(Next(s, step), w)
    ensures p.worker == w ==> (p in Next(s, step).posts <==> p in s.posts)
  {
    StepPostsToCurrent(s, step);
    hide Next;
  }

  /** Nothing is ever posted again to a worker that is no longer current. */
  lemma {:induction false} RetiredWorkerGetsNoPosts(s: Client, steps: seq<Step>, w: WorkerId, p: Post)
    requires Possible(s, steps) && Retired(s, w)
    ensures p.worker == w ==> (p in After(s, steps).posts <==> p in s.posts)
    decreases |steps|
  {
    hide Next, Enabled, Retired;
    if steps != [] {
      RetiredStep(s, steps[0], w, p);
      RetiredWorkerGetsNoPosts(Next(s, steps[0]), steps[1..], w, p);
    }
  }

  /** A late response from a worker that was let go never settles a later request. */
  lemma LateResponseSettlesNothingNew(s: Client, steps: seq<Step>, w: WorkerId, id: nat)
    requires Sound(s) && Possible(s, steps) && Retired(s, w)
    requires id > s.nextId && id in After(s, steps).settled
    ensures After(s, steps).settled[id].from != Some(w)
  {
    var s' := After(s, steps);
    RunsAreSound(s, steps);
    if s'.settled[id].from == Some(w) {
      var p :| p in s'.posts && p.worker == w && p.id == id;
      RetiredWorkerGetsNoPosts(s, steps, w, p);
      assert false;
    }
  }

  // -------------------------------------------------------------------------
  // Requests revoked before they were posted
  // -------------------------------------------------------------------------

  ghost predicate Unposted(s: Client, id: nat) {
    forall p :: p in s.posts ==> p.id != id
  }

  /** A reset inside the "running" callback: the request is registered with a live timer, and
      nothing is posted. */
  lemma RevokedRequestIsNotPosted(s: Client)
    requires Sound(s) && s.stack != [] && Top(s).Running? && Top(s).generation != s.generation
    ensures var s' := Resume(s); var id := Top(s).id;
      && s'.posts == s.posts && Unposted(s', id)
      && id in s'.pending && s'.pending[id] in s'.timers && s'.timers[s'.pending[id]] == Timer(id, s.now + s.timeoutMs)
  {
    assert Top(s) in s.stack;
  }

  ghost predicate Revoked(s: Client, id: nat) {
    && Unposted(s, id) && 1 <= id <= s.nextId
    && (forall f :: f in s.stack && f.Running? ==> f.id != id)
  }

  lemma RevokedStep(s: Client, step: Step, id: nat)
    requires Enabled(s, step) && Revoked(s, id)
    ensures Revoked(Next(s, step), id)
  {
    hide ResetWorker, Receive, FireTimer, Resume;
    match step
    case Request(command) =>
    case Reset => RevokedReset(s, ResetByUser, Tail, id);
    case Dispose => RevokedReset(s, Disposed, DisposeReset, id);
    case CallbackReturns => RevokedResume(s, id);
    case Response(w, k, reply) => RevokedReceive(s, w, k, reply, id);
    case TimerFires(h) => RevokedFire(s, h, id);
    case WorkerError => RevokedReset(s, WorkerFailed, Tail, id);
    case ClockAdvances(t) =>
  }

  lemma RevokedReset(s: Client, reason: Reason, after: Frame, id: nat)
    requires Revoked(s, id) && !after.Running?
    ensures Revoked(ResetWorker(s, reason, after), id)
  {
  }

  lemma RevokedReceive(s: Client, w: WorkerId, k: nat, reply: Reply, id: nat)
    requires Revoked(s, id)
    ensures Revoked(Receive(s, w, k, reply), id)
  {
    hide ResetWorker;
    if k in s.pending && reply.Failure? && reply.fatal {
      var s1 := s.(timers := s.timers - {s.pending[k]}, pending := s.pending - {k});
      RevokedReset(Settle(s1, k, Rejected(EvaluationFailed(reply.message)), Some(w)), SessionReset(reply.message), Tail, id);
    }
  }

  lemma RevokedFire(s: Client, h: nat, id: nat)
    requires Revoked(s, id) && h in s.timers
    ensures Revoked(FireTimer(s, h), id)
  {
    hide ResetWorker;
    var k := s.timers[h].id;
    RevokedReset(s.(timers := s.timers - {h}, pending := s.pending - {k}), TimedOut, TimeoutReset(k), id);
  }

  lemma RevokedResume(s: Client, id: nat)
    requires s.stack != [] && Revoked(s, id)
    ensures Revoked(Resume(s), id)
  {
    assert Top(s) in s.stack;
    assert forall f :: f in Pop(s).stack ==> f in s.stack;
    assert Revoked(Pop(s), id);
  }

  /** Such a request is never posted afterwards, so it can only be rejected. */
  lemma {:induction false} RevokedRequestIsRejected(s: Client, steps: seq<Step>, id: nat)
    requires Sound(s) && Possible(s, steps) && Revoked(s, id)
    ensures Unposted(After(s, steps), id)
    ensures id in After(s, steps).settled ==> After(s, steps).settled[id].outcome.Rejected?
    decreases |steps|
  {
    if steps == [] {
      RevokedOutcome(s, id);
    } else {
      RevokedStep(s, steps[0], id);
      StepKeepsSound(s, steps[0]);
      hide Next, Enabled, Sound;
      RevokedRequestIsRejected(Next(s, steps[0]), steps[1..], id);
    }
  }

  lemma RevokedOutcome(s: Client, id: nat)
    requires AnsweredByItsWorker(s) && Unposted(s, id)
    ensures id in s.settled ==> s.settled[id].outcome.Rejected?
  {
  }

  // -------------------------------------------------------------------------
  // The limit on pending requests
  // -------------------------------------------------------------------------

  /** The requests that are inside one of their status callbacks. */
  ghost function Open(stack: seq<Frame>): nat {
    if stack == [] then 0
    else Open(stack[..|stack| - 1]) + if IsOpen(stack[|stack| - 1]) then 1 else 0
  }

  ghost predicate IsOpen(f: Frame) {
    f.Loading? || f.Running?
  }

  lemma OpenAfterPush(stack: seq<Frame>, f: Frame)
    ensures Open(stack + [f]) == Open(stack) + if IsOpen(f) then 1 else 0
  {
    assert (stack + [f])[..|stack|] == stack;
  }

  /** At no point of the run are more than `depth` requests inside their callbacks.  A callback
      that makes no request of its own keeps every run within depth 1. */
  ghost predicate WithinDepth(s: Client, steps: seq<Step>, depth: nat)
    requires Possible(s, steps)
    decreases |steps|
  {
    Open(s.stack) <= depth && (steps == [] || WithinDepth(Next(s, steps[0]), steps[1..], depth))
  }

  lemma ResetLimit(s: Client, reason: Reason, after: Frame)
    requires !IsOpen(after)
    ensures |ResetWorker(s, reason, after).pending| == 0 && Open(ResetWorker(s, reason, after).stack) == Open(s.stack)
  {
    hide Open;
    OpenAfterPush(s.stack, after);
  }

  lemma LimitStep(s: Client, step: Step, depth: nat)
    requires Enabled(s, step)
    requires |s.pending| + Open(s.stack) <= MAX_PENDING - 1 + depth
    requires Open(Next(s, step).stack) <= depth
    ensures |Next(s, step).pending| + Open(Next(s, step).stack) <= MAX_PENDING - 1 + depth
  {
    hide Open, ResetWorker, Receive, FireTimer, Resume;
    match step
    case Request(command) =>
    case Reset => ResetLimit(s, ResetByUser, Tail);
    case Dispose => ResetLimit(s, Disposed, DisposeReset);
    case CallbackReturns => ResumeLimit(s);
    case Response(w, id, reply) => ReceiveLimit(s, w, id, reply);
    case TimerFires(h) => FireLimit(s, h);
    case WorkerError => ResetLimit(s, WorkerFailed, Tail);
    case ClockAdvances(t) =>
  }

  lemma ResumeLimit(s: Client)
    requires s.stack != []
    ensures |Resume(s).pending| + Open(Resume(s).stack) <= |s.pending| + Open(s.stack)
  {
    var s1 := Pop(s);
    match Top(s)
    case Loading(command) => OpenAfterPush(s1.stack, Running(s.nextId + 1, s.generation, command));
    case Running(id, generation, command) =>
      assert Register(s1, id, generation, command).pending == s.pending[id := s.handles];
    case TimeoutReset(id) =>
    case DisposeReset => OpenAfterPush(s1.stack, Tail);
    case Tail =>
  }

  lemma ReceiveLimit(s: Client, w: WorkerId, id: nat, reply: Reply)
    ensures |Receive(s, w, id, reply).pending| + Open(Receive(s, w, id, reply).stack) <= |s.pending| + Open(s.stack)
  {
    hide Open, ResetWorker;
    if id in s.pending {
      var s1 := s.(timers := s.timers - {s.pending[id]}, pending := s.pending - {id});
      assert |s1.pending| <= |s.pending|;
      match reply
      case Failure(message, fatal) =>
        var s2 := Settle(s1, id, Rejected(EvaluationFailed(message)), Some(w));
        if fatal {
          ResetLimit(s2, SessionReset(message), Tail);
        } else {
          OpenAfterPush(s.stack, Tail);
        }
      case Success(payload) =>
        OpenAfterPush(s.stack, Tail);
    }
  }

  lemma FireLimit(s: Client, h: nat)
    requires h in s.timers
    ensures |FireTimer(s, h).pending| + Open(FireTimer(s, h).stack) <= |s.pending| + Open(s.stack)
  {
    hide Open, ResetWorker;
    var id := s.timers[h].id;
    ResetLimit(s.(timers := s.timers - {h}, pending := s.pending - {id}), TimedOut, TimeoutReset(id));
  }

  /** Requests nested `depth` deep in status callbacks can exceed the limit of 16 by `depth - 1`,
      never by more.  In particular a callback that makes no requests (depth 1) keeps it. */
  lemma {:induction false} PendingWithinLimit(s: Client, steps: seq<Step>, depth: nat)
    requires Possible(s, steps) && WithinDepth(s, steps, depth)
    requires |s.pending| + Open(s.stack) <= MAX_PENDING - 1 + depth
    ensures |After(s, steps).pending| <= MAX_PENDING - 1 + depth
    decreases |steps|
  {
    hide Next, Enabled, Open;
    if steps != [] {
      LimitStep(s, steps[0], depth);
      PendingWithinLimit(Next(s, steps[0]), steps[1..], depth);
    }
  }

  // The bound is attained at every depth.

  lemma {:induction false} RunsCompose(s: Client, first: seq<Step>, second: seq<Step>)
    requires Possible(s, first) && Possible(After(s, first), second)
    ensures Possible(s, first + second) && After(s, first + second) == After(After(s, first), second)
    decreases |first|
  {
    hide Next, Enabled;
    if first == [] {
      assert first + second == second;
    } else {
      RunsCompose(Next(s, first[0]), first[1..], second);
      assert (first + second)[1..] == first[1..] + second;
    }
  }

  lemma {:induction false} DepthsCompose(s: Client, first: seq<Step>, second: seq<Step>, depth: nat)
    requires Possible(s, first) && WithinDepth(s, first, depth)
    requires Possible(After(s, first), second) && WithinDepth(After(s, first), second, depth)
    ensures Possible(s, first + second) && WithinDepth(s, first + second, depth)
    decreases |first|
  {
    hide Next, Enabled, Open;
    RunsCompose(s, first, second);
    if first == [] {
      assert first + second == second;
    } else {
      DepthsCompose(Next(s, first[0]), first[1..], second, depth);
      assert (first + second)[1..] == first[1..] + second;
    }
  }

  lemma NestOne(s: Client)
    requires Sound(s) && s.worker.Some? && |s.pending| < MAX_PENDING
    ensures var s1 := Next(s, Request(ListFiles));
      && Sound(s1) && s1.worker == s.worker && s1.pending == s.pending
      && s1.stack == s.stack + [Running(s.nextId + 1, s.generation, ListFiles)]
      && Open(s1.stack) == Open(s.stack) + 1
  {
    StepKeepsSound(s, Request(ListFiles));
    hide Sound;
    OpenAfterPush(s.stack, Running(s.nextId + 1, s.generation, ListFiles));
  }

  /** `n` requests from a worker that is up, each inside the callback of the one before. */
  lemma {:induction false} Nest(s: Client, n: nat, depth: nat) returns (steps: seq<Step>)
    requires Sound(s) && s.worker.Some? && |s.pending| < MAX_PENDING && Open(s.stack) + n <= depth
    ensures Possible(s, steps) && WithinDepth(s, steps, depth)
    ensures var s' := After(s, steps);
      && Sound(s') && s'.worker == s.worker && s'.pending == s.pending && |s'.stack| == |s.stack| + n
      && s.stack <= s'.stack && Open(s'.stack) == Open(s.stack) + n
      && forall i :: |s.stack| <= i < |s'.stack| ==> s'.stack[i].Running?
    decreases n
  {
    hide Next, Sound, Open;
    if n == 0 {
      steps := [];
    } else {
      var step := Request(ListFiles);
      NestOne(s);
      var s1 := Next(s, step);
      var rest := Nest(s1, n - 1, depth);
      steps := [step] + rest;
      assert steps[1..] == rest;
    }
  }

  lemma UnwindOne(s: Client)
    requires Sound(s) && s.worker.Some? && s.stack != [] && Top(s).Running?
    ensures Enabled(s, CallbackReturns) && Sound(Next(s, CallbackReturns))
    ensures var s1 := Next(s, CallbackReturns);
      && s1.worker == s.worker && s1.stack == Pop(s).stack && |s1.pending| == |s.pending| + 1
      && Open(s1.stack) <= Open(s.stack)
  {
    StepKeepsSound(s, CallbackReturns);
    HeldIsNotPending(s);
    hide Sound;
    assert Next(s, CallbackReturns).pending == s.pending[Top(s).id := s.handles];
  }

  /** The callbacks of the `n` innermost requests return, which registers them. */
  lemma {:induction false} Unwind(s: Client, n: nat, depth: nat) returns (steps: seq<Step>)
    requires Sound(s) && s.worker.Some? && n <= |s.stack| && Open(s.stack) <= depth
    requires forall i :: |s.stack| - n <= i < |s.stack| ==> s.stack[i].Running?
    ensures Possible(s, steps) && WithinDepth(s, steps, depth)
    ensures var s' := After(s, steps);
      Sound(s') && s'.worker == s.worker && s'.stack == s.stack[..|s.stack| - n] && |s'.pending| == |s.pending| + n
    decreases n
  {
    hide Next, Enabled, Sound, Open;
    if n == 0 {
      steps := [];
      assert s.stack[..|s.stack| - n] == s.stack;
    } else {
      UnwindOne(s);
      var step := CallbackReturns;
      var s1 := Next(s, step);
      var rest := Unwind(s1, n - 1, depth);
      steps := [step] + rest;
      assert steps[1..] == rest;
      assert s1.stack[..|s1.stack| - (n - 1)] == s.stack[..|s.stack| - n];
    }
  }

  lemma ResumeLoading(s: Client, below: seq<Frame>, command: Command)
    requires s.stack == below + [Loading(command)]
    ensures Enabled(s, CallbackReturns)
    ensures Next(s, CallbackReturns)
      == s.(stack := below + [Running(s.nextId + 1, s.generation, command)],
            nextId := s.nextId + 1, worker := Some(s.workers), workers := s.workers + 1)
  {
    assert Pop(s).stack == below;
  }

  lemma LeadingStep(s: Client, step: Step, steps: seq<Step>, depth: nat)
    requires Enabled(s, step) && Possible(Next(s, step), steps)
    requires Open(s.stack) <= depth && WithinDepth(Next(s, step), steps, depth)
    ensures Possible(s, [step] + steps) && After(s, [step] + steps) == After(Next(s, step), steps)
    ensures WithinDepth(s, [step] + steps, depth)
  {
    hide Next, Enabled, Open;
    assert ([step] + steps)[1..] == steps;
  }

  lemma FirstLoads(timeoutMs: nat)
    ensures var s := Fresh(timeoutMs); var step := Request(ListFiles);
      && Enabled(s, step) && Next(s, step).stack == [Loading(ListFiles)] && |Next(s, step).pending| == 0
      && Open(s.stack) == 0 && Open([Loading(ListFiles)]) == 1 && Open([Running(1, 0, ListFiles)]) == 1
      && Next(s, step).nextId == 0 && Next(s, step).generation == 0
  {
  }

  lemma FirstRequest(timeoutMs: nat) returns (steps: seq<Step>)
    ensures Possible(Fresh(timeoutMs), steps) && WithinDepth(Fresh(timeoutMs), steps, 1)
    ensures var s := After(Fresh(timeoutMs), steps);
      Sound(s) && s.worker.Some? && s.stack == [] && |s.pending| == 1
  {
    hide Next, Enabled, Sound, Open, Possible, After, WithinDepth;
    var s0, r := Fresh(timeoutMs), CallbackReturns;
    FreshIsSound(timeoutMs);
    FirstLoads(timeoutMs);
    var s1 := Next(s0, Request(ListFiles));
    StepKeepsSound(s0, Request(ListFiles));
    ResumeLoading(s1, [], ListFiles);
    var s2 := Next(s1, r);
    StepKeepsSound(s1, r);
    assert s2.stack == [Running(1, 0, ListFiles)];
    var rest := Unwind(s2, 1, 1);
    LeadingStep(s1, r, rest, 1);
    LeadingStep(s0, Request(ListFiles), [r] + rest, 1);
    steps := [Request(ListFiles)] + ([r] + rest);
  }

  lemma {:induction false} FillUp(timeoutMs: nat, n: nat) returns (steps: seq<Step>)
    requires 1 <= n < MAX_PENDING
    ensures Possible(Fresh(timeoutMs), steps) && WithinDepth(Fresh(timeoutMs), steps, 1)
    ensures var s := After(Fresh(timeoutMs), steps);
      Sound(s) && s.worker.Some? && s.stack == [] && |s.pending| == n
    decreases n
  {
    hide Next, Enabled, Sound;
    if n == 1 {
      steps := FirstRequest(timeoutMs);
    } else {
      var before := FillUp(timeoutMs, n - 1);
      steps := NestAndUnwind(Fresh(timeoutMs), before, 1, 1);
    }
  }

  lemma NestAndUnwind(s0: Client, before: seq<Step>, n: nat, depth: nat) returns (steps: seq<Step>)
    requires Possible(s0, before) && WithinDepth(s0, before, depth) && n <= depth
    requires var s := After(s0, before); Sound(s) && s.worker.Some? && s.stack == [] && |s.pending| < MAX_PENDING
    ensures Possible(s0, steps) && WithinDepth(s0, steps, depth)
    ensures var s := After(s0, before); var s' := After(s0, steps);
      Sound(s') && s'.worker.Some? && s'.stack == [] && |s'.pending| == |s.pending| + n
  {
    hide Next, Enabled, Sound;
    var s := After(s0, before);
    var down := Nest(s, n, depth);
    var up := Unwind(After(s, down), n, depth);
    RunsCompose(s, down, up);
    DepthsCompose(s, down, up, depth);
    RunsCompose(s0, before, down + up);
    DepthsCompose(s0, before, down + up, depth);
    steps := before + (down + up);
  }

  lemma {:induction false} DepthGrows(s: Client, steps: seq<Step>, depth: nat, more: nat)
    requires Possible(s, steps) && WithinDepth(s, steps, depth) && depth <= more
    ensures WithinDepth(s, steps, more)
    decreases |steps|
  {
    hide Next, Enabled, Open;
    if steps != [] {
      DepthGrows(Next(s, steps[0]), steps[1..], depth, more);
    }
  }

  /** For every depth there is a run that reaches the bound, so 16 is kept exactly by the
      callbacks that make no requests: already at depth 2 there can be 17. */
  lemma LimitIsAttained(timeoutMs: nat, depth: nat) returns (steps: seq<Step>)
    requires depth >= 1
    ensures Possible(Fresh(timeoutMs), steps) && WithinDepth(Fresh(timeoutMs), steps, depth)
    ensures |After(Fresh(timeoutMs), steps).pending| == MAX_PENDING - 1 + depth
  {
    hide Next, Enabled, Sound;
    var before := FillUp(timeoutMs, MAX_PENDING - 1);
    DepthGrows(Fresh(timeoutMs), before, 1, depth);
    steps := NestAndUnwind(Fresh(timeoutMs), before, depth, depth);
  }
}
