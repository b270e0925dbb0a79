/** The page and its workers together: every promise that a response settles is settled with the
    answer of a sequential server that ran the worker's commands one after the other. */
module RuntimeSystem {
  import opened Wrappers
  import opened RuntimeProtocol
  import Client = RuntimeClient
  import Safety = RuntimeSafety
  import Runs = RuntimeRuns
  import Sessions = RuntimeSessions
  import Effects = RuntimeEffects
  import opened RuntimeWorker

  /** `workers[w]` is the state of worker `w`, also after the page has terminated it. */
  datatype System<S> = System(client: Client.Client, workers: seq<State<S>>)

  /** A response may be delivered late, more than once or never. */
  datatype Step =
    | ClientStep(step: Client.Step)
    | MessageArrives(worker: nat)
    | TaskStarts(worker: nat)
    | BootEnds(worker: nat, failure: Option<Reply>)
    | TaskFinishes(worker: nat)
    | ResponseArrives(worker: nat, index: nat)

  /** The messages posted to one worker, oldest first. */
  function PostsTo(posts: seq<Client.Post>, w: nat): (r: seq<Request>)
    ensures |r| <= |posts|
  {
    if posts == [] then []
    else
      var rest := PostsTo(posts[..|posts| - 1], w);
      var last := posts[|posts| - 1];
      if last.worker == w then rest + [Request(last.id, last.command)] else rest
  }

  ghost predicate Enabled<S(!new)>(sys: System<S>, step: Step) {
    match step
    case ClientStep(c) => !c.Response? && Client.Enabled(sys.client, c)
    case MessageArrives(w) =>
      w < |sys.workers| && |sys.workers[w].queue| < |PostsTo(sys.client.posts, w)|
    case TaskStarts(w) => w < |sys.workers| && CanStart(sys.workers[w])
    case BootEnds(w, failure) =>
      w < |sys.workers| && sys.workers[w].boot.Starting? && (failure.Some? ==> failure.value.Failure?)
    case TaskFinishes(w) => w < |sys.workers| && CanFinish(sys.workers[w])
    case ResponseArrives(w, k) =>
      && w < |sys.workers| && k < |sys.workers[w].outbox|
      && Client.Enabled(sys.client, ResponseOf(sys, w, k))
  }

  function ResponseOf<S>(sys: System<S>, w: nat, k: nat): Client.Step
    requires w < |sys.workers| && k < |sys.workers[w].outbox|
  {
    Client.Response(w, sys.workers[w].outbox[k].id, sys.workers[w].outbox[k].reply)
  }

  ghost function Next<S(!new)>(engine: Engine<S>, sys: System<S>, step: Step): System<S>
    requires Enabled(sys, step)
  {
    match step
    case ClientStep(c) =>
      var client := Client.Next(sys.client, c);
      System(client, if client.workers > |sys.workers| then sys.workers + [Started()] else sys.workers)
    case MessageArrives(w) =>
      var st := sys.workers[w];
      sys.(workers := sys.workers[w := st.(queue := st.queue + [PostsTo(sys.client.posts, w)[|st.queue|]])])
    case TaskStarts(w) => sys.(workers := sys.workers[w := Start(sys.workers[w])])
    case BootEnds(w, failure) => sys.(workers := sys.workers[w := BootSettles(engine, sys.workers[w], failure)])
    case TaskFinishes(w) => sys.(workers := sys.workers[w := Finish(engine, sys.workers[w])])
    case ResponseArrives(w, k) => sys.(client := Client.Next(sys.client, ResponseOf(sys, w, k)))
  }

  ghost predicate Possible<S(!new)>(engine: Engine<S>, sys: System<S>, steps: seq<Step>)
    decreases |steps|
  {
    steps == [] || (Enabled(sys, steps[0]) && Possible(engine, Next(engine, sys, steps[0]), steps[1..]))
  }

  ghost function After<S(!new)>(engine: Engine<S>, sys: System<S>, steps: seq<Step>): System<S>
    requires Possible(engine, sys, steps)
    decreases |steps|
  {
    if steps == [] then sys else After(engine, Next(engine, sys, steps[0]), steps[1..])
  }

  function Initial<S>(timeoutMs: nat): System<S> {
    System(Client.Fresh(timeoutMs), [])
  }

  // -------------------------------------------------------------------------
  // The invariant
  // -------------------------------------------------------------------------

  /** The outcome of a promise is what the reply says. */
  predicate Reports(outcome: Client.Outcome, reply: Reply) {
    match reply
    case Success(payload) => outcome == Client.Resolved(payload)
    case Failure(message, _) => outcome == Client.Rejected(Client.EvaluationFailed(message))
  }

  ghost predicate Replied<S(!new)>(st: State<S>, id: nat, outcome: Client.Outcome) {
    exists k :: 0 <= k < |st.outbox| && st.outbox[k].id == id && Reports(outcome, st.outbox[k].reply)
  }

  ghost predicate WorkersFollow<S(!new)>(engine: Engine<S>, sys: System<S>) {
    && |sys.workers| == sys.client.workers
    && forall w :: 0 <= w < |sys.workers| ==>
         sys.workers[w].queue <= PostsTo(sys.client.posts, w) && Sequential(engine, sys.workers[w])
  }

  ghost predicate SettledByReplies<S(!new)>(sys: System<S>) {
    forall id :: id in sys.client.settled && sys.client.settled[id].from.Some? ==>
      var w := sys.client.settled[id].from.value;
      w < |sys.workers| && Replied(sys.workers[w], id, sys.client.settled[id].outcome)
  }

  ghost predicate Consistent<S(!new)>(engine: Engine<S>, sys: System<S>) {
    Client.Sound(sys.client) && WorkersFollow(engine, sys) && SettledByReplies(sys)
  }

  // -------------------------------------------------------------------------
  // Posts
  // -------------------------------------------------------------------------

  lemma PostsToAppend(posts: seq<Client.Post>, p: Client.Post, w: nat)
    ensures PostsTo(posts + [p], w) == if p.worker == w then PostsTo(posts, w) + [Request(p.id, p.command)] else PostsTo(posts, w)
  {
    assert (posts + [p])[..|posts|] == posts;
  }

  lemma {:induction false} PostsToNone(posts: seq<Client.Post>, w: nat)
    requires forall p :: p in posts ==> p.worker != w
    ensures PostsTo(posts, w) == []
  {
    if posts != [] {
      PostsToNone(posts[..|posts| - 1], w);
    }
  }

  // -------------------------------------------------------------------------
  // What client steps do to the posts and to the settled promises
  // -------------------------------------------------------------------------

  /** At most one new message, and a new worker only when nothing was posted. */
  ghost predicate PostsAtMostOne(s: Client.Client, s': Client.Client) {
    || (s'.posts == s.posts && (s'.workers == s.workers || s'.workers == s.workers + 1))
    || (s'.workers == s.workers && |s'.posts| == |s.posts| + 1 && s'.posts == s.posts + [s'.posts[|s.posts|]])
  }

  lemma ReceivePosts(s: Client.Client, w: nat, k: nat, reply: Reply)
    ensures Client.Receive(s, w, k, reply).posts == s.posts && Client.Receive(s, w, k, reply).workers == s.workers
  {
    hide Client.ResetWorker;
    if k in s.pending && reply.Failure? && reply.fatal {
      var s1 := s.(timers := s.timers - {s.pending[k]}, pending := s.pending - {k});
      Runs.ResetPosts(Client.Settle(s1, k, Client.Rejected(Client.EvaluationFailed(reply.message)), Some(w)),
                      Client.SessionReset(reply.message), Client.Tail);
    }
  }

  lemma StepPosts(s: Client.Client, step: Client.Step)
    requires Client.Enabled(s, step)
    ensures PostsAtMostOne(s, Client.Next(s, step))
  {
    hide Client.ResetWorker, Client.Receive;
    match step
    case Request(command) =>
    case Reset => Runs.ResetPosts(s, Client.ResetByUser, Client.Tail);
    case Dispose => Runs.ResetPosts(s, Client.Disposed, Client.DisposeReset);
    case CallbackReturns =>
    case Response(w, k, reply) => ReceivePosts(s, w, k, reply);
    case TimerFires(h) =>
      var k := s.timers[h].id;
      Runs.ResetPosts(s.(timers := s.timers - {h}, pending := s.pending - {k}), Client.TimedOut, Client.TimeoutReset(k));
    case WorkerError => Runs.ResetPosts(s, Client.WorkerFailed, Client.Tail);
    case ClockAdvances(t) =>
  }

  /** Settlements by a worker's response that are new in `s'` report `reply` to `id`. */
  ghost predicate NewAnswers(s: Client.Client, s': Client.Client, w: nat, id: nat, reply: Reply) {
    forall k :: k in s'.settled && s'.settled[k].from.Some? ==>
      || (k in s.settled && s.settled[k] == s'.settled[k])
      || (k == id && s'.settled[k].from == Some(w) && Reports(s'.settled[k].outcome, reply))
  }

  ghost predicate NoNewAnswers(s: Client.Client, s': Client.Client) {
    forall k :: k in s'.settled && s'.settled[k].from.Some? ==> k in s.settled && s.settled[k] == s'.settled[k]
  }

  lemma ResetAnswers(s: Client.Client, reason: Client.Reason, after: Client.Frame)
    ensures NoNewAnswers(s, Client.ResetWorker(s, reason, after))
  {
  }

  lemma ReceiveAnswers(s: Client.Client, w: nat, id: nat, reply: Reply)
    ensures NewAnswers(s, Client.Receive(s, w, id, reply), w, id, reply)
  {
    hide Client.ResetWorker;
    if id in s.pending && reply.Failure? && reply.fatal {
      var s1 := s.(timers := s.timers - {s.pending[id]}, pending := s.pending - {id});
      ResetAnswers(Client.Settle(s1, id, Client.Rejected(Client.EvaluationFailed(reply.message)), Some(w)),
                   Client.SessionReset(reply.message), Client.Tail);
    }
  }

  lemma OtherStepsAnswerNothing(s: Client.Client, step: Client.Step)
    requires Client.Enabled(s, step) && !step.Response?
    ensures NoNewAnswers(s, Client.Next(s, step))
  {
    hide Client.ResetWorker;
    match step
    case Request(command) =>
    case Reset => ResetAnswers(s, Client.ResetByUser, Client.Tail);
    case Dispose => ResetAnswers(s, Client.Disposed, Client.DisposeReset);
    case CallbackReturns =>
    case TimerFires(h) =>
      var k := s.timers[h].id;
      ResetAnswers(s.(timers := s.timers - {h}, pending := s.pending - {k}), Client.TimedOut, Client.TimeoutReset(k));
    case WorkerError => ResetAnswers(s, Client.WorkerFailed, Client.Tail);
    case ClockAdvances(t) =>
  }

  // -------------------------------------------------------------------------
  // Preservation
  // -------------------------------------------------------------------------

  lemma ClientKeepsWorkers<S(!new)>(engine: Engine<S>, sys: System<S>, client: Client.Client)
    requires WorkersFollow(engine, sys) && Client.PostedOnce(sys.client) && PostsAtMostOne(sys.client, client)
    ensures WorkersFollow(engine, System(client, if client.workers > |sys.workers| then sys.workers + [Started()] else sys.workers))
  {
    var n := |sys.workers|;
    if client.posts == sys.client.posts {
      PostsToNone(client.posts, n);
    } else {
      forall w | 0 <= w < n ensures PostsTo(sys.client.posts, w) <= PostsTo(client.posts, w) {
        PostsToAppend(sys.client.posts, client.posts[|sys.client.posts|], w);
      }
    }
  }

  lemma RepliesStay<S(!new)>(st: State<S>, st': State<S>, id: nat, outcome: Client.Outcome)
    requires st.outbox <= st'.outbox && Replied(st, id, outcome)
    ensures Replied(st', id, outcome)
  {
    var k :| 0 <= k < |st.outbox| && st.outbox[k].id == id && Reports(outcome, st.outbox[k].reply);
    assert st'.outbox[k] == st.outbox[k];
  }

  lemma WorkerKeepsReplies<S(!new)>(sys: System<S>, w: nat, st: State<S>)
    requires SettledByReplies(sys) && w < |sys.workers| && sys.workers[w].outbox <= st.outbox
    ensures SettledByReplies(sys.(workers := sys.workers[w := st]))
  {
    var sys' := sys.(workers := sys.workers[w := st]);
    forall id | id in sys'.client.settled && sys'.client.settled[id].from.Some?
      ensures var v := sys'.client.settled[id].from.value;
        v < |sys'.workers| && Replied(sys'.workers[v], id, sys'.client.settled[id].outcome)
    {
      var v := sys.client.settled[id].from.value;
      RepliesStay(sys.workers[v], sys'.workers[v], id, sys.client.settled[id].outcome);
    }
  }

  lemma ClientKeepsReplies<S(!new)>(sys: System<S>, client: Client.Client)
    requires SettledByReplies(sys) && NoNewAnswers(sys.client, client)
    ensures SettledByReplies(System(client, sys.workers)) && SettledByReplies(System(client, sys.workers + [Started()]))
  {
  }

  /** A step of one worker. */
  lemma WorkerStep<S(!new)>(engine: Engine<S>, sys: System<S>, w: nat, st: State<S>)
    requires Consistent(engine, sys) && w < |sys.workers|
    requires st.queue <= PostsTo(sys.client.posts, w) && Sequential(engine, st) && sys.workers[w].outbox <= st.outbox
    ensures Consistent(engine, sys.(workers := sys.workers[w := st]))
  {
    hide Client.Sound, Sequential, Replied;
    WorkerKeepsReplies(sys, w, st);
  }

  lemma ClientStepKeeps<S(!new)>(engine: Engine<S>, sys: System<S>, c: Client.Step)
    requires Consistent(engine, sys) && !c.Response? && Client.Enabled(sys.client, c)
    ensures Consistent(engine, Next(engine, sys, ClientStep(c)))
  {
    Safety.StepKeepsSound(sys.client, c);
    StepPosts(sys.client, c);
    OtherStepsAnswerNothing(sys.client, c);
    hide Client.Next, Client.Enabled, WorkersFollow, SettledByReplies, NoNewAnswers, PostsAtMostOne;
    ClientKeepsWorkers(engine, sys, Client.Next(sys.client, c));
    ClientKeepsReplies(sys, Client.Next(sys.client, c));
  }

  lemma ResponseStepKeeps<S(!new)>(engine: Engine<S>, sys: System<S>, w: nat, k: nat)
    requires Consistent(engine, sys) && Enabled(sys, ResponseArrives(w, k))
    ensures Consistent(engine, Next(engine, sys, ResponseArrives(w, k)))
  {
    var step := ResponseOf(sys, w, k);
    Safety.StepKeepsSound(sys.client, step);
    ReceivePosts(sys.client, w, step.id, step.reply);
    ReceiveAnswers(sys.client, w, step.id, step.reply);
    assert Client.Next(sys.client, step) == Client.Receive(sys.client, w, step.id, step.reply);
    hide Client.Receive, Client.Next, Client.Sound, Sequential;
    assert sys.workers[w].outbox[k] == Message(step.id, step.reply);
  }

  lemma StepKeepsConsistent<S(!new)>(engine: Engine<S>, sys: System<S>, step: Step)
    requires Consistent(engine, sys) && Enabled(sys, step)
    ensures Consistent(engine, Next(engine, sys, step))
  {
    match step
    case ClientStep(c) => ClientStepKeeps(engine, sys, c);
    case MessageArrives(w) =>
      var st := sys.workers[w];
      MessageKeepsSequential(engine, st, PostsTo(sys.client.posts, w)[|st.queue|]);
      hide Sequential, Client.Sound, SettledByReplies;
      WorkerStep(engine, sys, w, st.(queue := st.queue + [PostsTo(sys.client.posts, w)[|st.queue|]]));
    case TaskStarts(w) =>
      StartKeepsSequential(engine, sys.workers[w]);
      hide Sequential, Client.Sound, SettledByReplies;
      WorkerStep(engine, sys, w, Start(sys.workers[w]));
    case BootEnds(w, failure) =>
      BootKeepsSequential(engine, sys.workers[w], failure);
      hide Sequential, Client.Sound, SettledByReplies;
      WorkerStep(engine, sys, w, BootSettles(engine, sys.workers[w], failure));
    case TaskFinishes(w) =>
      FinishKeepsSequential(engine, sys.workers[w]);
      hide Sequential, Client.Sound, SettledByReplies;
      WorkerStep(engine, sys, w, Finish(engine, sys.workers[w]));
    case ResponseArrives(w, k) => ResponseStepKeeps(engine, sys, w, k);
  }

  lemma {:induction false} RunsAreConsistent<S(!new)>(engine: Engine<S>, sys: System<S>, steps: seq<Step>)
    requires Consistent(engine, sys) && Possible(engine, sys, steps)
    ensures Consistent(engine, After(engine, sys, steps))
    decreases |steps|
  {
    hide Next, Enabled, Consistent;
    if steps != [] {
      StepKeepsConsistent(engine, sys, steps[0]);
      RunsAreConsistent(engine, Next(engine, sys, steps[0]), steps[1..]);
    }
  }

  /** Refinement: in every run of the page and its workers, a promise that worker `w` settled
      was the `k`-th request posted to `w` for some `k`, and its outcome is the answer of a
      server that started from one fresh session and evaluated, one by one and in order, the
      first `k` commands posted to `w` before it (`IsAnswer`). */
  lemma SettledAsSequentialServer<S(!new)>(engine: Engine<S>, timeoutMs: nat, steps: seq<Step>, id: nat) returns (k: nat)
    requires Possible(engine, Initial(timeoutMs), steps)
    requires id in After(engine, Initial(timeoutMs), steps).client.settled
    requires After(engine, Initial(timeoutMs), steps).client.settled[id].from.Some?
    ensures var sys := After(engine, Initial(timeoutMs), steps);
      var settlement := sys.client.settled[id];
      var w := settlement.from.value;
      w < |sys.workers| &&
      var posted := PostsTo(sys.client.posts, w);
      k < |posted| && posted[k].id == id &&
      var verdict, before, command := VerdictOf(sys.workers[w]), Commands(posted[..k]), posted[k].command;
      var reply := Answer(engine, verdict, before, command);
      IsAnswer(engine, verdict, before, command, reply) && Reports(settlement.outcome, reply)
  {
    Safety.FreshIsSound(timeoutMs);
    RunsAreConsistent(engine, Initial(timeoutMs), steps);
    var sys := After(engine, Initial(timeoutMs), steps);
    hide Client.Sound, After, Possible;
    var w := sys.client.settled[id].from.value;
    var st := sys.workers[w];
    k :| 0 <= k < |st.outbox| && st.outbox[k].id == id && Reports(sys.client.settled[id].outcome, st.outbox[k].reply);
    var posted := PostsTo(sys.client.posts, w);
    assert st.queue[..k] == posted[..k];
    AnswerIs(engine, VerdictOf(st), Commands(posted[..k]), posted[k].command);
  }

  /** Each worker answers in posting order, one reply per request. */
  lemma RepliesInPostingOrder<S(!new)>(engine: Engine<S>, timeoutMs: nat, steps: seq<Step>, w: nat, k: nat)
    requires Possible(engine, Initial(timeoutMs), steps)
    requires w < |After(engine, Initial(timeoutMs), steps).workers|
    requires k < |After(engine, Initial(timeoutMs), steps).workers[w].outbox|
    ensures var sys := After(engine, Initial(timeoutMs), steps);
      k < |PostsTo(sys.client.posts, w)| && sys.workers[w].outbox[k].id == PostsTo(sys.client.posts, w)[k].id
  {
    Safety.FreshIsSound(timeoutMs);
    RunsAreConsistent(engine, Initial(timeoutMs), steps);
  }

  // -------------------------------------------------------------------------
  // A request is answered
  // -------------------------------------------------------------------------

  lemma OneStep<S(!new)>(engine: Engine<S>, sys: System<S>, step: Step, steps: seq<Step>)
    requires Enabled(sys, step) && Possible(engine, Next(engine, sys, step), steps)
    ensures Possible(engine, sys, [step] + steps) && After(engine, sys, [step] + steps) == After(engine, Next(engine, sys, step), steps)
  {
    hide Next, Enabled;
    assert ([step] + steps)[1..] == steps;
  }

  /** The page after its first request, which waits at a new worker with this state. */
  ghost predicate Waits<S(!new)>(sys: System<S>, command: Command, st: State<S>) {
    && sys.workers == [st]
    && sys.client.stack == [] && sys.client.settled == map[] && sys.client.timers.Keys == {0}
    && sys.client.pending == map[1 := 0] && sys.client.posts == [Client.Post(0, 1, command, 0)]
  }

  lemma ClientMoves<S(!new)>(engine: Engine<S>, sys: System<S>, c: Client.Step)
    requires !c.Response? && Client.Enabled(sys.client, c)
    ensures Enabled(sys, ClientStep(c))
    ensures var client := Client.Next(sys.client, c);
      Next(engine, sys, ClientStep(c)) == System(client, if client.workers > |sys.workers| then sys.workers + [Started()] else sys.workers)
  {
    hide Client.Next, Client.Enabled;
  }

  lemma Asked<S(!new)>(engine: Engine<S>, timeoutMs: nat, command: Command) returns (sys: System<S>, steps: seq<Step>)
    ensures Possible(engine, Initial(timeoutMs), steps) && After(engine, Initial(timeoutMs), steps) == sys
    ensures Waits(sys, command, Started())
  {
    hide Client.Next, Client.Enabled, Next, Enabled;
    var request, back := Client.Request(command), Client.CallbackReturns;
    var s0: System<S> := Initial(timeoutMs);
    Effects.RequestGoesOn(s0.client, command);
    ClientMoves(engine, s0, request);
    var s1 := Next(engine, s0, ClientStep(request));
    Effects.LoadedGoesOn(s1.client, [], command);
    ClientMoves(engine, s1, back);
    var s2 := Next(engine, s1, ClientStep(back));
    Effects.RunningIsPosted(s2.client, [], 1, command);
    ClientMoves(engine, s2, back);
    sys := Next(engine, s2, ClientStep(back));
    assert Possible(engine, sys, []) && After(engine, sys, []) == sys;
    OneStep(engine, s2, ClientStep(back), []);
    OneStep(engine, s1, ClientStep(back), [ClientStep(back)] + []);
    OneStep(engine, s0, ClientStep(request), [ClientStep(back)] + ([ClientStep(back)] + []));
    steps := [ClientStep(request)] + ([ClientStep(back)] + ([ClientStep(back)] + []));
  }

  /** The worker's answer reaches the page. */
  lemma Delivered<S(!new)>(engine: Engine<S>, sys: System<S>, command: Command, st: State<S>, reply: Reply) returns (steps: seq<Step>)
    requires Waits(sys, command, st) && st.outbox == [Message(1, reply)]
    ensures Possible(engine, sys, steps)
    ensures var settled := After(engine, sys, steps).client.settled;
      1 in settled && settled[1].from == Some(0) && Reports(settled[1].outcome, reply)
  {
    var step := ResponseArrives(0, 0);
    assert sys.client.posts[0] == Client.Post(0, 1, command, 0);
    assert Client.Posted(sys.client, 0, 1);
    var s1 := Next(engine, sys, step);
    assert 1 in s1.client.settled;
    assert Possible(engine, s1, []) && After(engine, s1, []) == s1;
    hide Next, Enabled;
    OneStep(engine, sys, step, []);
    steps := [step] + [];
  }

  /** The first request of a new page can always be answered, with the answer to its command on a fresh session:
      over this run its promise is settled by the response of its worker. */
  lemma RequestIsAnswered<S(!new)>(engine: Engine<S>, timeoutMs: nat, command: Command) returns (steps: seq<Step>, reply: Reply)
    ensures Possible(engine, Initial(timeoutMs), steps) && IsAnswer(engine, Booted, [], command, reply)
    ensures var settled := After(engine, Initial(timeoutMs), steps).client.settled;
      1 in settled && settled[1].from == Some(0) && Reports(settled[1].outcome, reply)
  {
    var sys, asked := Asked(engine, timeoutMs, command);
    var worked, final, st := Worked(engine, sys, command);
    reply := st.outbox[0].reply;
    var delivered := Delivered(engine, final, command, st, reply);
    hide Possible, After, Waits;
    RunsJoin(engine, sys, worked, delivered);
    RunsJoin(engine, Initial(timeoutMs), asked, worked + delivered);
    steps := asked + (worked + delivered);
  }

  lemma {:induction false} RunsJoin<S(!new)>(engine: Engine<S>, sys: System<S>, a: seq<Step>, b: seq<Step>)
    requires Possible(engine, sys, a) && Possible(engine, After(engine, sys, a), b)
    ensures Possible(engine, sys, a + b) && After(engine, sys, a + b) == After(engine, After(engine, sys, a), b)
    decreases |a|
  {
    hide Enabled, Next;
    if a == [] {
      assert a + b == b;
    } else {
      RunsJoin(engine, Next(engine, sys, a[0]), a[1..], b);
      assert (a + b)[1..] == a[1..] + b;
    }
  }

  /** The worker takes the message and comes to its answer. */
  lemma Worked<S(!new)>(engine: Engine<S>, sys: System<S>, command: Command) returns (steps: seq<Step>, final: System<S>, st: State<S>)
    requires Waits(sys, command, Started())
    ensures Possible(engine, sys, steps) && After(engine, sys, steps) == final && Waits(final, command, st)
    ensures |st.outbox| == 1 && st.outbox[0].id == 1 && IsAnswer(engine, Booted, [], command, st.outbox[0].reply)
  {
    var take, start := MessageArrives(0), TaskStarts(0);
    assert sys.client.posts[..0] == [];
    assert PostsTo(sys.client.posts, 0) == [Request(1, command)];
    var s1 := Next(engine, sys, take);
    var queued: State<S> := State([Request(1, command)], 0, false, NotStarted, []);
    assert s1 == sys.(workers := [queued]);
    var s2 := Next(engine, s1, start);
    assert s2 == sys.(workers := [Start(queued)]);
    if Early(command).Some? {
      st, final := Start(queued), s2;
      assert Possible(engine, s2, []) && After(engine, s2, []) == s2;
      hide Next, Enabled;
      OneStep(engine, s1, start, []);
      OneStep(engine, sys, take, [start] + []);
      steps := [take] + ([start] + []);
    } else {
      var waiting: State<S> := queued.(waiting := true, boot := Starting);
      assert s2 == sys.(workers := [waiting]);
      hide Next, Enabled, Waits;
      var rest: seq<Step>;
      rest, final, st := Finished(engine, s2, command, waiting);
      OneStep(engine, s1, start, rest);
      OneStep(engine, sys, take, [start] + rest);
      steps := [take] + ([start] + rest);
    }
  }

  lemma Finished<S(!new)>(engine: Engine<S>, sys: System<S>, command: Command, waiting: State<S>) returns (steps: seq<Step>, final: System<S>, st: State<S>)
    requires Waits(sys, command, waiting) && Early(command).None?
    requires waiting == State([Request(1, command)], 0, true, Starting, [])
    ensures Possible(engine, sys, steps) && After(engine, sys, steps) == final && Waits(final, command, st)
    ensures |st.outbox| == 1 && st.outbox[0].id == 1 && IsAnswer(engine, Booted, [], command, st.outbox[0].reply)
  {
    var boot, finish := BootEnds(0, None), TaskFinishes(0);
    var s1 := Next(engine, sys, boot);
    var ready := waiting.(boot := Ready(engine.initial));
    assert s1 == sys.(workers := [ready]);
    final := Next(engine, s1, finish);
    st := Finish(engine, ready);
    assert final == sys.(workers := [st]);
    assert Possible(engine, final, []) && After(engine, final, []) == final;
    hide Next, Enabled;
    OneStep(engine, s1, finish, []);
    OneStep(engine, sys, boot, [finish] + []);
    steps := [boot] + ([finish] + []);
  }

  // -------------------------------------------------------------------------
  // Generations
  // -------------------------------------------------------------------------

  /** The messages posted in one generation, oldest first, to whatever workers. */
  function PostsOf(posts: seq<Client.Post>, generation: nat): (r: seq<Request>)
    ensures |r| <= |posts|
  {
    if posts == [] then []
    else
      var rest := PostsOf(posts[..|posts| - 1], generation);
      var last := posts[|posts| - 1];
      if last.generation == generation then rest + [Request(last.id, last.command)] else rest
  }

  lemma {:induction false} SamePosts(posts: seq<Client.Post>, w: nat, generation: nat)
    requires forall p :: p in posts ==> (p.worker == w <==> p.generation == generation)
    ensures PostsTo(posts, w) == PostsOf(posts, generation)
  {
    if posts != [] {
      assert posts[|posts| - 1] in posts;
      SamePosts(posts[..|posts| - 1], w, generation);
    }
  }

  lemma {:induction false} PostedTo(posts: seq<Client.Post>, w: nat, k: nat) returns (p: Client.Post)
    requires k < |PostsTo(posts, w)|
    ensures p in posts && p.worker == w && Request(p.id, p.command) == PostsTo(posts, w)[k]
  {
    var init, last := posts[..|posts| - 1], posts[|posts| - 1];
    if k < |PostsTo(init, w)| {
      p := PostedTo(init, w, k);
    } else {
      p := last;
    }
  }

  /** While this is the page's generation, no two of its requests are inside the "loading" callback. */
  ghost predicate OneLoading<S(!new)>(engine: Engine<S>, sys: System<S>, steps: seq<Step>, generation: nat)
    requires Possible(engine, sys, steps)
    decreases |steps|
  {
    && LoadsOne(sys, generation)
    && (steps == [] || OneLoading(engine, Next(engine, sys, steps[0]), steps[1..], generation))
  }

  ghost predicate LoadsOne<S(!new)>(sys: System<S>, generation: nat) {
    sys.client.generation == generation ==> Sessions.Loads(sys.client.stack) <= 1
  }

  lemma StepKeepsSessions<S(!new)>(engine: Engine<S>, sys: System<S>, step: Step, generation: nat)
    requires Client.Sound(sys.client) && Enabled(sys, step) && Sessions.OneSessionPerWorker(sys.client) && Sessions.Served(sys.client)
    ensures var sys' := Next(engine, sys, step);
      && Sessions.OneSessionPerWorker(sys'.client) && Sessions.Served(sys'.client)
      && (Sessions.Undivided(sys.client, generation) && LoadsOne(sys', generation) ==> Sessions.Undivided(sys'.client, generation))
  {
    hide Client.Next, Client.Enabled, Client.Sound, Sessions.OneSessionPerWorker, Sessions.Served, Sessions.Undivided, Sessions.Loads;
    if step.ClientStep? || step.ResponseArrives? {
      var c := if step.ClientStep? then step.step else ResponseOf(sys, step.worker, step.index);
      SoundIsPostedOnce(sys.client);
      Sessions.StepKeepsSessions(sys.client, c);
      Sessions.StepKeepsUndivided(sys.client, c, generation);
    }
  }

  lemma SoundIsPostedOnce(s: Client.Client)
    requires Client.Sound(s)
    ensures Client.PostedOnce(s)
  {
  }

  lemma {:induction false} RunsKeepSessions<S(!new)>(engine: Engine<S>, sys: System<S>, steps: seq<Step>, generation: nat)
    requires Consistent(engine, sys) && Possible(engine, sys, steps)
    requires Sessions.OneSessionPerWorker(sys.client) && Sessions.Served(sys.client)
    ensures Sessions.OneSessionPerWorker(After(engine, sys, steps).client)
    ensures Sessions.Undivided(sys.client, generation) && OneLoading(engine, sys, steps, generation)
      ==> Sessions.Undivided(After(engine, sys, steps).client, generation)
    decreases |steps|
  {
    hide Next, Enabled, Consistent, LoadsOne, Sessions.OneSessionPerWorker, Sessions.Served, Sessions.Undivided;
    if steps != [] {
      var sys' := Next(engine, sys, steps[0]);
      ConsistentIsSound(engine, sys);
      StepKeepsSessions(engine, sys, steps[0], generation);
      StepKeepsConsistent(engine, sys, steps[0]);
      RunsKeepSessions(engine, sys', steps[1..], generation);
      if OneLoading(engine, sys, steps, generation) {
        assert OneLoading(engine, sys', steps[1..], generation);
        assert LoadsOne(sys', generation);
      }
    }
  }

  lemma ConsistentIsSound<S(!new)>(engine: Engine<S>, sys: System<S>)
    requires Consistent(engine, sys)
    ensures Client.Sound(sys.client)
  {
  }

  /** In every run, the requests answered by one worker are of one generation: no generation sees the
      session of another. */
  lemma WorkersServeOneGeneration<S(!new)>(engine: Engine<S>, timeoutMs: nat, steps: seq<Step>)
    requires Possible(engine, Initial(timeoutMs), steps)
    ensures Sessions.OneSessionPerWorker(After(engine, Initial(timeoutMs), steps).client)
  {
    hide Possible, After;
    Safety.FreshIsSound(timeoutMs);
    Sessions.AtRest(Client.Fresh(timeoutMs));
    RunsKeepSessions(engine, Initial(timeoutMs), steps, 0);
  }

  /** Refinement, within a session generation: as long as no two requests of its generation are inside the
      "loading" callback at one time, a promise that a response settled was the `k`-th request of this
      generation for some `k`, and its outcome is the answer of a server that started from one fresh session
      and evaluated, one by one and in order, the first `k` requests of that generation before it. */
  lemma GenerationIsSequentialServer<S(!new)>(engine: Engine<S>, timeoutMs: nat, steps: seq<Step>, id: nat)
    returns (generation: nat, k: nat)
    requires Possible(engine, Initial(timeoutMs), steps)
    requires id in After(engine, Initial(timeoutMs), steps).client.settled
    requires After(engine, Initial(timeoutMs), steps).client.settled[id].from.Some?
    requires forall p :: p in After(engine, Initial(timeoutMs), steps).client.posts && p.id == id ==>
               OneLoading(engine, Initial(timeoutMs), steps, p.generation)
    ensures var sys := After(engine, Initial(timeoutMs), steps);
      var settlement := sys.client.settled[id];
      var posted := PostsOf(sys.client.posts, generation);
      var w := settlement.from.value;
      && w < |sys.workers| && k < |posted| && posted[k].id == id
      && (forall p :: p in sys.client.posts ==> (p.worker == w <==> p.generation == generation))
      && var verdict, before, command := VerdictOf(sys.workers[w]), Commands(posted[..k]), posted[k].command;
         var reply := Answer(engine, verdict, before, command);
         IsAnswer(engine, verdict, before, command, reply) && Reports(settlement.outcome, reply)
  {
    hide Possible, After, OneLoading, Client.Sound, Sessions.Served, Sessions.Undivided;
    k := SettledAsSequentialServer(engine, timeoutMs, steps, id);
    Sessions.AtRest(Client.Fresh(timeoutMs));
    Safety.FreshIsSound(timeoutMs);
    var sys := After(engine, Initial(timeoutMs), steps);
    var w := sys.client.settled[id].from.value;
    var p := PostedTo(sys.client.posts, w, k);
    generation := p.generation;
    RunsKeepSessions(engine, Initial(timeoutMs), steps, generation);
    Sessions.UndividedMeans(sys.client, generation);
    SamePosts(sys.client.posts, w, generation);
  }
}
