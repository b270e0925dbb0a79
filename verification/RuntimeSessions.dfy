/** The worker of a session generation of `RRuntime`: when the requests of one generation share an
    interpreter, and that generations never do. */
module RuntimeSessions {
  import opened Wrappers
  import opened RuntimeProtocol
  import opened RuntimeClient
  import opened RuntimeSafety
  import opened RuntimeRuns

  /** The requests that wait for the "loading" callback. */
  ghost function Loads(stack: seq<Frame>): nat {
    if stack == [] then 0
    else Loads(stack[..|stack| - 1]) + if stack[|stack| - 1].Loading? then 1 else 0
  }

  lemma LoadsAfterPush(stack: seq<Frame>, f: Frame)
    ensures Loads(stack + [f]) == Loads(stack) + if f.Loading? then 1 else 0
  {
    assert (stack + [f])[..|stack|] == stack;
  }

  /** A request that is not refused for the limit. */
  ghost predicate Accepts(s: Client, step: Step) {
    step.Request? && |s.pending| < MAX_PENDING
  }

  // -------------------------------------------------------------------------
  // A worker serves one generation
  // -------------------------------------------------------------------------

  /** Posts to one worker have one generation, and posts to the current worker the current one. */
  ghost predicate OneSessionPerWorker(s: Client) {
    && (forall p, q :: p in s.posts && q in s.posts && p.worker == q.worker ==> p.generation == q.generation)
    && (forall p :: p in s.posts && s.worker == Some(p.worker) ==> p.generation == s.generation)
  }

  lemma SamePostsKeepSessions(s: Client, s': Client)
    requires OneSessionPerWorker(s) && s'.posts == s.posts
    requires s'.worker.None? || (s'.worker == s.worker && s'.generation == s.generation)
    ensures OneSessionPerWorker(s')
  {
  }

  lemma ResetKeepsSessions(s: Client, reason: Reason, after: Frame)
    requires OneSessionPerWorker(s)
    ensures OneSessionPerWorker(ResetWorker(s, reason, after))
  {
    ResetPosts(s, reason, after);
    hide ResetWorker;
    SamePostsKeepSessions(s, ResetWorker(s, reason, after));
  }

  lemma ReceiveKeepsSessions(s: Client, w: WorkerId, id: nat, reply: Reply)
    requires OneSessionPerWorker(s)
    ensures OneSessionPerWorker(Receive(s, w, id, reply))
  {
    hide ResetWorker;
    if id in s.pending && reply.Failure? && reply.fatal {
      var s1 := s.(timers := s.timers - {s.pending[id]}, pending := s.pending - {id});
      ResetKeepsSessions(Settle(s1, id, Rejected(EvaluationFailed(reply.message)), Some(w)), SessionReset(reply.message), Tail);
    } else {
      SamePostsKeepSessions(s, Receive(s, w, id, reply));
    }
  }

  lemma FireKeepsSessions(s: Client, h: nat)
    requires OneSessionPerWorker(s) && h in s.timers
    ensures OneSessionPerWorker(FireTimer(s, h))
  {
    hide ResetWorker;
    var id := s.timers[h].id;
    ResetKeepsSessions(s.(timers := s.timers - {h}, pending := s.pending - {id}), TimedOut, TimeoutReset(id));
  }

  lemma RegisterKeepsSessions(s: Client, id: nat, generation: nat, command: Command)
    requires OneSessionPerWorker(s)
    ensures OneSessionPerWorker(Register(s, id, generation, command))
  {
    var s' := Register(s, id, generation, command);
    assert forall p :: p in s'.posts && p !in s.posts ==> p.generation == s.generation && s.worker == Some(p.worker);
  }

  lemma ResumeKeepsSessions(s: Client)
    requires OneSessionPerWorker(s) && PostedOnce(s) && s.stack != []
    ensures OneSessionPerWorker(Resume(s))
  {
    match Top(s)
    case Loading(command) =>
    case Running(id, generation, command) => RegisterKeepsSessions(Pop(s), id, generation, command);
    case TimeoutReset(id) => SamePostsKeepSessions(s, Resume(s));
    case DisposeReset => SamePostsKeepSessions(s, Resume(s));
    case Tail => SamePostsKeepSessions(s, Resume(s));
  }

  /** A new worker is always another one, so no interpreter outlives its generation. */
  lemma StepKeepsSessions(s: Client, step: Step)
    requires OneSessionPerWorker(s) && PostedOnce(s) && Enabled(s, step)
    ensures OneSessionPerWorker(Next(s, step))
  {
    hide ResetWorker, Receive, FireTimer, Resume, PostedOnce;
    match step
    case Request(command) => SamePostsKeepSessions(s, Next(s, step));
    case Reset => ResetKeepsSessions(s, ResetByUser, Tail);
    case Dispose => ResetKeepsSessions(s, Disposed, DisposeReset);
    case CallbackReturns => ResumeKeepsSessions(s);
    case Response(w, id, reply) => ReceiveKeepsSessions(s, w, id, reply);
    case TimerFires(h) => FireKeepsSessions(s, h);
    case WorkerError => ResetKeepsSessions(s, WorkerFailed, Tail);
    case ClockAdvances(t) => SamePostsKeepSessions(s, Next(s, step));
  }

  /** Over every run, two generations never share a worker. */
  lemma {:induction false} WorkerHasOneSession(s: Client, steps: seq<Step>)
    requires OneSessionPerWorker(s) && Sound(s) && Possible(s, steps)
    ensures OneSessionPerWorker(After(s, steps))
    decreases |steps|
  {
    hide Next, Enabled, OneSessionPerWorker;
    if steps != [] {
      StepKeepsSessions(s, steps[0]);
      StepKeepsSound(s, steps[0]);
      hide Sound;
      WorkerHasOneSession(Next(s, steps[0]), steps[1..]);
    }
  }

  // -------------------------------------------------------------------------
  // How many workers a generation gets
  // -------------------------------------------------------------------------

  ghost function PostedWorkers(posts: seq<Post>, generation: nat): set<WorkerId> {
    set p | p in posts && p.generation == generation :: p.worker
  }

  /** A request of this generation waits for its "running" callback, above all that load. */
  ghost predicate RunsOnTop(stack: seq<Frame>, generation: nat) {
    if stack == [] then false
    else
      var f := stack[|stack| - 1];
      if f.Loading? then false
      else (f.Running? && f.generation == generation) || RunsOnTop(stack[..|stack| - 1], generation)
  }

  /** The workers that got, or are about to get, a message of the current generation. */
  ghost function Serving(s: Client): set<WorkerId> {
    PostedWorkers(s.posts, s.generation) + if s.worker.Some? && RunsOnTop(s.stack, s.generation) then {s.worker.value} else {}
  }

  /** Each request that loads will make one more. */
  ghost function Workers(s: Client): nat {
    |Serving(s)| + Loads(s.stack)
  }

  /** A worker that is there serves the current generation, and without one nothing does. */
  ghost predicate Served(s: Client) {
    if s.worker.Some? then s.worker.value in Serving(s) else Serving(s) == {}
  }

  lemma RunsAfterPush(stack: seq<Frame>, f: Frame, generation: nat)
    ensures RunsOnTop(stack + [f], generation)
      == (!f.Loading? && ((f.Running? && f.generation == generation) || RunsOnTop(stack, generation)))
  {
    assert (stack + [f])[..|stack|] == stack;
  }

  lemma {:induction false} RunningMember(stack: seq<Frame>, generation: nat)
    requires RunsOnTop(stack, generation)
    ensures exists f :: f in stack && f.Running? && f.generation == generation
  {
    var n := |stack| - 1;
    if !(stack[n].Running? && stack[n].generation == generation) {
      RunningMember(stack[..n], generation);
      var f :| f in stack[..n] && f.Running? && f.generation == generation;
      assert f in stack;
    } else {
      assert stack[n] in stack;
    }
  }

  /** Whoever waits for a "running" callback in the current session has a worker. */
  lemma RunningHasWorker(s: Client)
    requires PostedOnce(s) && RunsOnTop(s.stack, s.generation)
    ensures s.worker.Some?
  {
    RunningMember(s.stack, s.generation);
  }

  lemma PostedAppend(posts: seq<Post>, p: Post, generation: nat)
    ensures PostedWorkers(posts + [p], generation)
      == PostedWorkers(posts, generation) + if p.generation == generation then {p.worker} else {}
  {
    assert forall q :: q in posts + [p] <==> q in posts || q == p;
  }

  lemma SmallerSet<T>(a: set<T>, b: set<T>)
    requires a <= b
    ensures |a| <= |b|
  {
    assert b == a + (b - a);
  }

  lemma RequestKeepsWorkers(s: Client, command: Command)
    requires PostedOnce(s)
    ensures Workers(BeginRequest(s, command)) >= Workers(s)
    ensures |s.pending| < MAX_PENDING && Loads(s.stack) > 0 ==> Workers(BeginRequest(s, command)) >= 2
    ensures var s' := BeginRequest(s, command);
      Served(s) ==> Served(s') && Workers(s') == Workers(s) + if |s.pending| < MAX_PENDING && s.worker.None? then 1 else 0
  {
    hide PostedOnce, Workers, Loads, Served;
    if s.worker.Some? {
      RunningKeepsWorkers(s, command);
    } else {
      LoadingKeepsWorkers(s, command);
    }
  }

  lemma RunningKeepsWorkers(s: Client, command: Command)
    requires s.worker.Some?
    ensures Workers(BeginRunning(s, command)) >= Workers(s) && Workers(BeginRunning(s, command)) >= 1 + Loads(s.stack)
    ensures Served(s) ==> Served(BeginRunning(s, command)) && Workers(BeginRunning(s, command)) == Workers(s)
  {
    hide Loads, RunsOnTop, PostedWorkers;
    var s', running := BeginRunning(s, command), Running(s.nextId + 1, s.generation, command);
    LoadsAfterPush(s.stack, running);
    RunsAfterPush(s.stack, running, s.generation);
    SmallerSet(Serving(s), Serving(s'));
    SmallerSet({s.worker.value}, Serving(s'));
    assert Served(s) ==> Serving(s') == Serving(s);
  }

  lemma LoadingKeepsWorkers(s: Client, command: Command)
    requires s.worker.None? && PostedOnce(s)
    ensures Workers(Push(s, Loading(command))) == Workers(s) + 1 && Workers(Push(s, Loading(command))) >= 1 + Loads(s.stack)
    ensures Served(s) ==> Served(Push(s, Loading(command)))
  {
    if RunsOnTop(s.stack, s.generation) {
      RunningHasWorker(s);
    }
    hide PostedOnce, Loads, RunsOnTop, PostedWorkers;
    LoadsAfterPush(s.stack, Loading(command));
  }

  lemma RegisterKeepsWorkers(s: Client, id: nat, generation: nat, command: Command, stack: seq<Frame>)
    requires s.stack == stack + [Running(id, generation, command)] && PostedOnce(s)
    ensures var s' := Register(s.(stack := stack), id, generation, command);
      Workers(s') == Workers(s) && (Served(s) ==> Served(s'))
  {
    var f := Running(id, generation, command);
    var s' := Register(s.(stack := stack), id, generation, command);
    LoadsAfterPush(stack, f);
    RunsAfterPush(stack, f, s.generation);
    if generation == s.generation {
      RunningHasWorker(s);
      PostedAppend(s.posts, Post(s.worker.value, id, command, generation), s.generation);
    }
    hide PostedOnce, Loads, RunsOnTop, PostedWorkers;
    assert Serving(s') == Serving(s);
  }

  /** The new worker has not been posted to. */
  lemma LoadedKeepsWorkers(s: Client, command: Command, stack: seq<Frame>)
    requires s.stack == stack + [Loading(command)] && PostedOnce(s)
    ensures var s' := BeginRunning(s.(stack := stack, worker := Some(s.workers), workers := s.workers + 1), command);
      Workers(s') == Workers(s) && Served(s')
  {
    var running := Running(s.nextId + 1, s.generation, command);
    LoadsAfterPush(stack, Loading(command));
    LoadsAfterPush(stack, running);
    RunsAfterPush(stack, Loading(command), s.generation);
    RunsAfterPush(stack, running, s.generation);
    assert s.workers !in PostedWorkers(s.posts, s.generation);
    hide PostedOnce, Loads, RunsOnTop, PostedWorkers;
  }

  lemma OtherFrameKeepsWorkers(s: Client, s': Client, f: Frame)
    requires !f.Loading? && !f.Running?
    requires s'.posts == s.posts && s'.worker == s.worker && s'.generation == s.generation
    requires s'.stack == s.stack || s'.stack == s.stack + [f] || s.stack == s'.stack + [f]
    ensures Workers(s') == Workers(s) && (Served(s) ==> Served(s'))
  {
    LoadsAfterPush(s.stack, f);
    LoadsAfterPush(s'.stack, f);
    RunsAfterPush(s.stack, f, s.generation);
    RunsAfterPush(s'.stack, f, s.generation);
    hide Loads, RunsOnTop, PostedWorkers;
  }

  lemma ResumeKeepsWorkers(s: Client)
    requires PostedOnce(s) && s.stack != []
    ensures Workers(Resume(s)) == Workers(s) && (Served(s) ==> Served(Resume(s)))
  {
    hide PostedOnce, Workers, Served;
    var f, s1 := Top(s), Pop(s);
    assert s.stack == s1.stack + [f];
    match f
    case Loading(command) => LoadedKeepsWorkers(s, command, s1.stack);
    case Running(id, generation, command) => RegisterKeepsWorkers(s, id, generation, command, s1.stack);
    case TimeoutReset(id) => OtherFrameKeepsWorkers(s, Resume(s), f);
    case DisposeReset =>
      OtherFrameKeepsWorkers(s, s1, f);
      OtherFrameKeepsWorkers(s1, Resume(s), Tail);
    case Tail => OtherFrameKeepsWorkers(s, Resume(s), f);
  }

  lemma ResetAdvances(s: Client, reason: Reason, after: Frame)
    requires forall p :: p in s.posts ==> p.generation <= s.generation
    ensures var s' := ResetWorker(s, reason, after);
      s'.generation == s.generation + 1 && s'.posts == s.posts && s'.worker.None? && Served(s')
  {
  }

  /** What every step but a request does: it resets the session, or leaves the workers of its generation. */
  ghost predicate ResetsOrKeeps(s: Client, s': Client) {
    || (s'.generation == s.generation + 1 && s'.posts == s.posts && s'.worker.None? && Served(s'))
    || (s'.generation == s.generation && Workers(s') == Workers(s) && (Served(s) ==> Served(s')))
  }

  lemma ReceiveKeepsWorkers(s: Client, w: WorkerId, id: nat, reply: Reply)
    requires PostedOnce(s)
    ensures ResetsOrKeeps(s, Receive(s, w, id, reply))
  {
    hide ResetWorker, Workers, Served;
    if id in s.pending {
      var s1 := s.(timers := s.timers - {s.pending[id]}, pending := s.pending - {id});
      if reply.Failure? && reply.fatal {
        ResetAdvances(Settle(s1, id, Rejected(EvaluationFailed(reply.message)), Some(w)), SessionReset(reply.message), Tail);
      } else {
        OtherFrameKeepsWorkers(s, Receive(s, w, id, reply), Tail);
      }
    }
  }

  lemma FireKeepsWorkers(s: Client, h: nat)
    requires PostedOnce(s) && h in s.timers
    ensures ResetsOrKeeps(s, FireTimer(s, h))
  {
    hide ResetWorker, Workers, Served;
    var id := s.timers[h].id;
    ResetAdvances(s.(timers := s.timers - {h}, pending := s.pending - {id}), TimedOut, TimeoutReset(id));
    OtherFrameKeepsWorkers(s, s.(timers := s.timers - {h}), Tail);
  }

  lemma PostsAreDated(s: Client)
    requires PostedOnce(s)
    ensures forall p :: p in s.posts ==> p.generation <= s.generation
  {
  }

  lemma OtherStepKeepsWorkers(s: Client, step: Step)
    requires PostedOnce(s) && Enabled(s, step) && !step.Request?
    ensures ResetsOrKeeps(s, Next(s, step))
  {
    PostsAreDated(s);
    hide PostedOnce, Workers, Served, ResetWorker, Receive, FireTimer, Resume;
    match step
    case Reset => ResetAdvances(s, ResetByUser, Tail);
    case Dispose => ResetAdvances(s, Disposed, DisposeReset);
    case CallbackReturns =>
      ResumeKeepsWorkers(s);
      ResumeKeepsGeneration(s);
    case Response(w, id, reply) => ReceiveKeepsWorkers(s, w, id, reply);
    case TimerFires(h) => FireKeepsWorkers(s, h);
    case WorkerError => ResetAdvances(s, WorkerFailed, Tail);
    case ClockAdvances(t) => OtherFrameKeepsWorkers(s, Next(s, step), Tail);
  }

  /** A step resets the session, or the workers that its generation has and will get become no
      fewer; and a request accepted while another loads makes them two.  Once a worker serves the
      session, or there is none, they become more exactly when a request is accepted without one. */
  lemma StepKeepsWorkers(s: Client, step: Step)
    requires PostedOnce(s) && Enabled(s, step)
    ensures var s' := Next(s, step);
      || s'.generation == s.generation + 1
      || (s'.generation == s.generation && Workers(s') >= Workers(s)
          && (Accepts(s, step) && Loads(s.stack) > 0 ==> Workers(s') >= 2)
          && (Served(s) ==> Served(s') && Workers(s') == Workers(s) + if Accepts(s, step) && s.worker.None? then 1 else 0))
  {
    hide PostedOnce, Workers, Served, Loads;
    if step.Request? {
      RequestKeepsWorkers(s, step.command);
    } else {
      OtherStepKeepsWorkers(s, step);
    }
  }

  lemma ResumeKeepsGeneration(s: Client)
    requires s.stack != []
    ensures Resume(s).generation == s.generation
  {
  }

  lemma {:induction false} GenerationGrows(s: Client, steps: seq<Step>)
    requires Sound(s) && Possible(s, steps)
    ensures After(s, steps).generation >= s.generation
    decreases |steps|
  {
    hide Next, Enabled;
    if steps != [] {
      StepKeepsWorkers(s, steps[0]);
      StepKeepsSound(s, steps[0]);
      hide Sound, Workers;
      GenerationGrows(Next(s, steps[0]), steps[1..]);
    }
  }

  lemma {:induction false} RunKeepsWorkers(s: Client, steps: seq<Step>)
    requires Sound(s) && Possible(s, steps) && After(s, steps).generation == s.generation
    ensures Workers(After(s, steps)) >= Workers(s)
    decreases |steps|
  {
    hide Next, Enabled;
    if steps != [] {
      StepKeepsWorkers(s, steps[0]);
      StepKeepsSound(s, steps[0]);
      hide Sound, Workers, Served;
      var s1 := Next(s, steps[0]);
      GenerationGrows(s1, steps[1..]);
      RunKeepsWorkers(s1, steps[1..]);
    }
  }

  // -------------------------------------------------------------------------
  // When a generation has one interpreter
  // -------------------------------------------------------------------------

  /** While this is the generation, no two requests wait for their "loading" callbacks at one time. */
  ghost predicate OneLoading(s: Client, steps: seq<Step>, generation: nat)
    requires Possible(s, steps)
    decreases |steps|
  {
    && (s.generation == generation ==> Loads(s.stack) <= 1)
    && (steps == [] || OneLoading(Next(s, steps[0]), steps[1..], generation))
  }

  /** The generation has had, and if it is the current one will get, at most one worker so far. */
  ghost predicate Undivided(s: Client, generation: nat) {
    if s.generation == generation then Workers(s) <= 1 else |PostedWorkers(s.posts, generation)| <= 1
  }

  /** The generation reached two interpreters. */
  ghost predicate Split(posts: seq<Post>, generation: nat) {
    exists p, q :: p in posts && q in posts && p.generation == q.generation == generation && p.worker != q.worker
  }

  lemma SplitIff(posts: seq<Post>, generation: nat)
    ensures Split(posts, generation) <==> |PostedWorkers(posts, generation)| >= 2
  {
    var all := PostedWorkers(posts, generation);
    if |all| >= 2 {
      var v, w := TwoMembers(all);
      var p :| p in posts && p.generation == generation && p.worker == v;
      var q :| q in posts && q.generation == generation && q.worker == w;
    }
    if Split(posts, generation) {
      var p, q :| p in posts && q in posts && p.generation == q.generation == generation && p.worker != q.worker;
      assert p.worker in all && q.worker in all;
      SmallerSet({p.worker, q.worker}, all);
    }
  }

  lemma UndividedMeans(s: Client, generation: nat)
    requires Undivided(s, generation)
    ensures !Split(s.posts, generation)
  {
    SplitIff(s.posts, generation);
    SmallerSet(PostedWorkers(s.posts, s.generation), Serving(s));
  }

  /** Messages are posted in the current generation. */
  lemma OldPostsStay(s: Client, step: Step, generation: nat)
    requires Enabled(s, step) && generation != s.generation
    ensures PostedWorkers(Next(s, step).posts, generation) == PostedWorkers(s.posts, generation)
  {
    hide ResetWorker, Receive, FireTimer, PostedWorkers;
    match step
    case Request(command) =>
    case Reset => ResetPosts(s, ResetByUser, Tail);
    case Dispose => ResetPosts(s, Disposed, DisposeReset);
    case CallbackReturns =>
      var f := Top(s);
      if f.Running? && f.generation == s.generation && s.worker.Some? {
        PostedAppend(s.posts, Post(s.worker.value, f.id, f.command, f.generation), generation);
      }
    case Response(w, id, reply) => ReceivePostsNothing(s, w, id, reply);
    case TimerFires(h) => FirePostsNothing(s, h);
    case WorkerError => ResetPosts(s, WorkerFailed, Tail);
    case ClockAdvances(t) =>
  }

  lemma ReceivePostsNothing(s: Client, w: WorkerId, id: nat, reply: Reply)
    ensures Receive(s, w, id, reply).posts == s.posts
  {
    hide ResetWorker;
    if id in s.pending && reply.Failure? && reply.fatal {
      var s1 := s.(timers := s.timers - {s.pending[id]}, pending := s.pending - {id});
      ResetPosts(Settle(s1, id, Rejected(EvaluationFailed(reply.message)), Some(w)), SessionReset(reply.message), Tail);
    }
  }

  lemma FirePostsNothing(s: Client, h: nat)
    requires h in s.timers
    ensures FireTimer(s, h).posts == s.posts
  {
    var id := s.timers[h].id;
    ResetPosts(s.(timers := s.timers - {h}, pending := s.pending - {id}), TimedOut, TimeoutReset(id));
    hide ResetWorker;
  }

  lemma StepKeepsUndivided(s: Client, step: Step, generation: nat)
    requires PostedOnce(s) && Served(s) && Enabled(s, step)
    ensures var s' := Next(s, step);
      && Served(s')
      && (Undivided(s, generation) && (s'.generation == generation ==> Loads(s'.stack) <= 1) ==> Undivided(s', generation))
  {
    var s' := Next(s, step);
    StepServes(s, step);
    if generation != s.generation {
      OldPostsStay(s, step, generation);
    } else {
      SmallerSet(PostedWorkers(s.posts, generation), Serving(s));
    }
    hide PostedOnce, Loads, PostedWorkers, RunsOnTop, Next, Enabled;
  }

  /** Without a worker, those to come are those of the requests that load. */
  lemma StepServes(s: Client, step: Step)
    requires PostedOnce(s) && Served(s) && Enabled(s, step)
    ensures var s' := Next(s, step);
      && Served(s')
      && ((s'.generation == s.generation + 1 && s'.posts == s.posts && s'.worker.None?)
          || (s'.generation == s.generation && (Workers(s') == Workers(s) || s'.worker.None?)))
  {
    hide PostedOnce, Workers, Served, Loads;
    if step.Request? {
      RequestKeepsWorkers(s, step.command);
    } else {
      OtherStepKeepsWorkers(s, step);
    }
  }

  /** As long as no two requests load at one time while it is the current one, all requests of a session
      generation go to one worker, and so to one interpreter. */
  lemma {:induction false} SessionHasOneWorker(s: Client, steps: seq<Step>, generation: nat)
    requires Sound(s) && Served(s) && Possible(s, steps)
    requires Undivided(s, generation) && OneLoading(s, steps, generation)
    ensures Served(After(s, steps)) && Undivided(After(s, steps), generation) && !Split(After(s, steps).posts, generation)
    decreases |steps|
  {
    hide Next, Enabled, Loads, Served, Split, Undivided;
    if steps == [] {
      UndividedMeans(s, generation);
    } else {
      StepKeepsUndivided(s, steps[0], generation);
      StepKeepsSound(s, steps[0]);
      hide Sound;
      assert OneLoading(Next(s, steps[0]), steps[1..], generation);
      SessionHasOneWorker(Next(s, steps[0]), steps[1..], generation);
    }
  }

  /** A generation that has not begun. */
  lemma LaterIsUndivided(s: Client, generation: nat)
    requires PostedOnce(s) && s.generation < generation
    ensures Undivided(s, generation)
  {
    assert PostedWorkers(s.posts, generation) == {};
  }

  lemma {:induction false} RunDivides(s: Client, steps: seq<Step>)
    requires Sound(s) && Possible(s, steps)
    requires var g := After(s, steps).generation; !(Undivided(s, g) && OneLoading(s, steps, g))
    ensures Workers(After(s, steps)) >= 2
    decreases |steps|
  {
    var g := After(s, steps).generation;
    GenerationGrows(s, steps);
    hide Next, Enabled, Serving, Loads;
    if s.generation == g && Workers(s) >= 2 {
      RunKeepsWorkers(s, steps);
    } else {
      if s.generation < g {
        LaterIsUndivided(s, g);
      }
      StepKeepsSound(s, steps[0]);
      RunDivides(Next(s, steps[0]), steps[1..]);
    }
  }

  /** The proviso is needed, in every run: once two requests of the final generation have loaded at one
      time, it is split for good. */
  lemma NestedLoadingSplitsSession(s: Client, steps: seq<Step>)
    requires Sound(s) && Possible(s, steps) && After(s, steps).stack == []
    requires var g := After(s, steps).generation; !(Undivided(s, g) && OneLoading(s, steps, g))
    ensures Split(After(s, steps).posts, After(s, steps).generation)
  {
    hide Sound, Possible, OneLoading, After;
    RunDivides(s, steps);
    var s' := After(s, steps);
    assert Serving(s') == PostedWorkers(s'.posts, s'.generation);
    SplitIff(s'.posts, s'.generation);
  }

  /** So it is exact, whatever became of earlier generations: in a run that comes to rest the requests of
      its last generation share one interpreter if and only if that was so at the start and no two of them
      have loaded at one time. */
  lemma OneInterpreterIff(s: Client, steps: seq<Step>)
    requires Sound(s) && Served(s) && Possible(s, steps) && After(s, steps).stack == []
    ensures var g := After(s, steps).generation;
      !Split(After(s, steps).posts, g) <==> Undivided(s, g) && OneLoading(s, steps, g)
  {
    hide Sound, Served, Possible, OneLoading, After, Undivided, Split;
    var g := After(s, steps).generation;
    if Undivided(s, g) && OneLoading(s, steps, g) {
      SessionHasOneWorker(s, steps, g);
    } else {
      NestedLoadingSplitsSession(s, steps);
    }
  }

  lemma AtRest(s: Client)
    requires s.stack == [] && s.posts == [] && s.worker.None?
    ensures Served(s) && OneSessionPerWorker(s) && forall generation :: Undivided(s, generation)
  {
    assert forall generation :: PostedWorkers(s.posts, generation) == {};
  }

  /** A runtime from its start: the last generation has one interpreter exactly when no two of its requests
      have loaded at one time. */
  lemma FreshInterpreterIff(timeoutMs: nat, steps: seq<Step>)
    requires Possible(Fresh(timeoutMs), steps) && After(Fresh(timeoutMs), steps).stack == []
    ensures var s := After(Fresh(timeoutMs), steps);
      !Split(s.posts, s.generation) <==> OneLoading(Fresh(timeoutMs), steps, s.generation)
  {
    FreshIsSound(timeoutMs);
    AtRest(Fresh(timeoutMs));
    hide Sound, Served, Possible, OneLoading, After, Undivided, Split;
    OneInterpreterIff(Fresh(timeoutMs), steps);
  }

  lemma TwoMembers<T>(a: set<T>) returns (x: T, y: T)
    requires |a| >= 2
    ensures x in a && y in a && x != y
  {
    x :| x in a;
    var rest := a - {x};
    assert |rest| == |a| - 1;
    y :| y in rest;
  }

  /** Such a run is open to every runtime at rest without a worker and with room for a request. */
  lemma NestedLoadingIsPossible(s: Client, a: Command, b: Command) returns (steps: seq<Step>)
    requires s.stack == [] && s.worker.None? && |s.pending| < MAX_PENDING
    ensures Possible(s, steps) && !OneLoading(s, steps, s.generation)
    ensures var s' := After(s, steps);
      && s'.stack == [] && s'.generation == s.generation
      && s'.posts == s.posts + [Post(s.workers, s.nextId + 1, b, s.generation), Post(s.workers + 1, s.nextId + 2, a, s.generation)]
  {
    hide Next, Enabled, Accepts, Loads, Possible, After, OneLoading;
    TwoLoad(s, a, b);
    BothLoad(a, b);
    var s1 := Next(s, Request(a));
    var s2 := Next(s1, Request(b));
    steps := UnwindBoth(s2, a, b);
    NotOneLoading(s2, steps);
    FirstStep(s1, Request(b), steps);
    steps := [Request(b)] + steps;
    FirstStep(s, Request(a), steps);
    steps := [Request(a)] + steps;
  }

  lemma FirstStep(s: Client, step: Step, steps: seq<Step>)
    requires Enabled(s, step) && Possible(Next(s, step), steps)
    ensures Possible(s, [step] + steps) && After(s, [step] + steps) == After(Next(s, step), steps)
    ensures forall g :: OneLoading(s, [step] + steps, g) <==> (s.generation == g ==> Loads(s.stack) <= 1) && OneLoading(Next(s, step), steps, g)
  {
    hide Next, Enabled, Accepts, Loads;
    assert ([step] + steps)[1..] == steps;
  }

  lemma BothLoad(a: Command, b: Command)
    ensures Loads([Loading(a), Loading(b)]) == 2
  {
    LoadsAfterPush([], Loading(a));
    LoadsAfterPush([Loading(a)], Loading(b));
    assert [] + [Loading(a)] == [Loading(a)] && [Loading(a)] + [Loading(b)] == [Loading(a), Loading(b)];
  }

  lemma NotOneLoading(s: Client, steps: seq<Step>)
    requires Possible(s, steps) && Loads(s.stack) >= 2
    ensures !OneLoading(s, steps, s.generation)
  {
    hide Loads;
  }

  lemma TwoLoad(s: Client, a: Command, b: Command)
    requires s.stack == [] && s.worker.None? && |s.pending| < MAX_PENDING
    ensures Enabled(s, Request(a)) && Enabled(Next(s, Request(a)), Request(b))
    ensures var s1 := Next(s, Request(a));
      Next(s1, Request(b)) == s.(stack := [Loading(a), Loading(b)]) && s1.generation == s.generation
  {
    assert Next(s, Request(a)).stack == [Loading(a)];
  }

  lemma ResumeRunning(s: Client, below: seq<Frame>, id: nat, command: Command)
    requires s.stack == below + [Running(id, s.generation, command)] && s.worker.Some?
    ensures Enabled(s, CallbackReturns)
    ensures var s' := Next(s, CallbackReturns);
      && s'.stack == below && s'.generation == s.generation && s'.nextId == s.nextId && s'.workers == s.workers
      && s'.posts == s.posts + [Post(s.worker.value, id, command, s.generation)]
  {
    assert Pop(s).stack == below;
  }

  lemma UnwindBoth(s: Client, a: Command, b: Command) returns (steps: seq<Step>)
    requires s.stack == [Loading(a), Loading(b)]
    ensures Possible(s, steps)
    ensures var s' := After(s, steps);
      && s'.stack == [] && s'.generation == s.generation
      && s'.posts == s.posts + [Post(s.workers, s.nextId + 1, b, s.generation), Post(s.workers + 1, s.nextId + 2, a, s.generation)]
  {
    hide Next, Enabled, Accepts, Loads;
    var r := CallbackReturns;
    ResumeLoading(s, [Loading(a)], b);
    var s1 := Next(s, r);
    ResumeRunning(s1, [Loading(a)], s.nextId + 1, b);
    var s2 := Next(s1, r);
    ResumeLoading(s2, [], a);
    var s3 := Next(s2, r);
    ResumeRunning(s3, [], s.nextId + 2, a);
    FirstStep(s3, r, []);
    FirstStep(s2, r, [r] + []);
    FirstStep(s1, r, [r] + ([r] + []));
    FirstStep(s, r, [r] + ([r] + ([r] + [])));
    steps := [r] + ([r] + ([r] + ([r] + [])));
  }
}
