/** What `RRuntime` keeps over every run of its steps, however the status callback re-enters. */
module RuntimeSafety {
  import opened Wrappers
  import opened RuntimeProtocol
  import opened RuntimeClient

  // -------------------------------------------------------------------------
  // Frames
  // -------------------------------------------------------------------------

  lemma HeldAfterPush(stack: seq<Frame>, f: Frame)
    ensures Held(stack + [f]) == Held(stack) + HeldBy(f)
  {
    assert (stack + [f])[..|stack|] == stack;
  }

  lemma {:induction false} MemberIsHeld(stack: seq<Frame>, f: Frame)
    requires f in stack
    ensures HeldBy(f) <= Held(stack)
  {
    if f != stack[|stack| - 1] {
      MemberIsHeld(stack[..|stack| - 1], f);
    }
  }

  function Pop(s: Client): Client
    requires s.stack != []
  {
    s.(stack := s.stack[..|s.stack| - 1])
  }

  function Top(s: Client): Frame
    requires s.stack != []
  {
    s.stack[|s.stack| - 1]
  }

  // -------------------------------------------------------------------------
  // Every request is in one place
  // -------------------------------------------------------------------------

  lemma PlacesAfterPush(s: Client, f: Frame, id: nat)
    ensures Places(Push(s, f), id) == Places(s, id) + HeldBy(f)[id]
  {
    HeldAfterPush(s.stack, f);
  }

  lemma RejectedKeys(s: Client, reason: Reason)
    ensures var s' := RejectAll(s, reason);
      && s'.pending == map[] && s'.settled.Keys == s.settled.Keys + s.pending.Keys && s'.stack == s.stack
      && s'.settledTwice == s.settledTwice + s.pending.Keys * s.settled.Keys
  {
  }

  lemma PlacesAfterReject(s: Client, reason: Reason, id: nat)
    requires id in s.pending ==> id !in s.settled
    ensures Places(RejectAll(s, reason), id) == Places(s, id)
  {
    hide Held, RejectAll;
    RejectedKeys(s, reason);
  }

  lemma PlacesAfterPop(s: Client, id: nat)
    requires s.stack != []
    ensures Places(s, id) == Places(Pop(s), id) + HeldBy(Top(s))[id]
  {
  }

  /** Where the requests are after `resetWorker`: those pending become settled. */
  lemma PlacesAfterReset(s: Client, reason: Reason, after: Frame)
    requires s.pending.Keys !! s.settled.Keys && s.settledTwice == {}
    ensures forall id: nat :: Places(ResetWorker(s, reason, after), id) == Places(s, id) + HeldBy(after)[id]
    ensures ResetWorker(s, reason, after).settledTwice == {}
  {
    hide Held, RejectAll;
    var s1 := s.(generation := s.generation + 1, worker := None);
    RejectedKeys(s1, reason);
    forall id: nat
      ensures Places(ResetWorker(s, reason, after), id) == Places(s, id) + HeldBy(after)[id]
    {
      PlacesAfterReject(s1, reason, id);
      PlacesAfterPush(RejectAll(s1, reason), after, id);
      assert Places(s1, id) == Places(s, id);
    }
  }

  lemma PendingIsNotSettled(s: Client)
    requires Accounted(s)
    ensures s.pending.Keys !! s.settled.Keys
  {
    forall id | id in s.pending ensures id !in s.settled {
      assert Places(s, id) <= 1;
    }
  }

  lemma BeginRunningKeepsAccounted(s: Client, command: Command)
    requires Accounted(s)
    ensures Accounted(BeginRunning(s, command))
  {
    hide Held;
    var s1 := s.(nextId := s.nextId + 1);
    var f := Running(s1.nextId, s.generation, command);
    forall id: nat
      ensures Places(BeginRunning(s, command), id) == if 1 <= id <= s1.nextId then 1 else 0
    {
      assert Places(s1, id) == Places(s, id);
      PlacesAfterPush(s1, f, id);
    }
  }

  lemma ReceiveKeepsAccounted(s: Client, w: WorkerId, id: nat, reply: Reply)
    requires Accounted(s)
    ensures Accounted(Receive(s, w, id, reply))
  {
    hide Held;
    if id in s.pending {
      PendingIsNotSettled(s);
      var outcome := if reply.Failure? then Rejected(EvaluationFailed(reply.message)) else Resolved(reply.payload);
      var s1 := s.(timers := s.timers - {s.pending[id]}, pending := s.pending - {id});
      var s2 := Settle(s1, id, outcome, Some(w));
      assert forall k: nat :: Places(s2, k) == Places(s, k);
      if reply.Failure? && reply.fatal {
        PlacesAfterReset(s2, SessionReset(reply.message), Tail);
      } else {
        forall k: nat ensures Places(Push(s2, Tail), k) == Places(s2, k) { PlacesAfterPush(s2, Tail, k); }
      }
    }
  }

  lemma FireKeepsAccounted(s: Client, h: nat)
    requires Accounted(s) && h in s.timers
    ensures Accounted(FireTimer(s, h))
  {
    hide Held;
    var id := s.timers[h].id;
    var s1 := s.(timers := s.timers - {h});
    if id in s.pending {
      PendingIsNotSettled(s);
      var s2 := s1.(pending := s.pending - {id});
      assert forall k: nat :: Places(s2, k) == Places(s, k) - if k == id then 1 else 0;
      PlacesAfterReset(s2, TimedOut, TimeoutReset(id));
    } else {
      assert forall k: nat :: Places(s1, k) == Places(s, k);
    }
  }

  lemma ResetKeepsAccounted(s: Client, reason: Reason, after: Frame)
    requires Accounted(s) && HeldBy(after) == multiset{}
    ensures Accounted(ResetWorker(s, reason, after))
  {
    hide Held;
    PendingIsNotSettled(s);
    PlacesAfterReset(s, reason, after);
    assert ResetWorker(s, reason, after).nextId == s.nextId;
  }

  lemma PushKeepsAccounted(s: Client, f: Frame)
    requires Accounted(s) && HeldBy(f) == multiset{}
    ensures Accounted(Push(s, f))
  {
    hide Held;
    forall k: nat ensures Places(Push(s, f), k) == Places(s, k) { PlacesAfterPush(s, f, k); }
  }

  /** A request leaves its frame: it is registered as pending or, after a timeout, rejected. */
  lemma PoppedRequestMoves(s: Client, id: nat)
    requires Accounted(s) && s.stack != [] && HeldBy(Top(s)) == multiset{id}
    ensures forall k: nat :: Places(Pop(s), k) == if k != id && 1 <= k <= s.nextId then 1 else 0
    ensures 1 <= id <= s.nextId
  {
    hide Held;
    forall k: nat ensures Places(s, k) == Places(Pop(s), k) + HeldBy(Top(s))[k] { PlacesAfterPop(s, k); }
    assert Places(s, id) == 1;
  }

  lemma RegisterKeepsAccounted(s: Client, id: nat, generation: nat, command: Command)
    requires s.settledTwice == {} && 1 <= id <= s.nextId
    requires forall k: nat :: Places(s, k) == if k != id && 1 <= k <= s.nextId then 1 else 0
    ensures Accounted(Register(s, id, generation, command))
  {
    hide Held;
    var s2 := Register(s, id, generation, command);
    assert s2.pending.Keys == s.pending.Keys + {id};
    assert Places(s, id) == 0;
    assert forall k: nat :: Places(s2, k) == Places(s, k) + if k == id then 1 else 0;
  }

  lemma SettleKeepsAccounted(s: Client, id: nat, outcome: Outcome, from: Option<WorkerId>)
    requires s.settledTwice == {} && 1 <= id <= s.nextId
    requires forall k: nat :: Places(s, k) == if k != id && 1 <= k <= s.nextId then 1 else 0
    ensures Accounted(Settle(s, id, outcome, from))
  {
    hide Held;
    var s2 := Settle(s, id, outcome, from);
    assert Places(s, id) == 0;
    assert forall k: nat :: Places(s2, k) == Places(s, k) + if k == id then 1 else 0;
  }

  lemma PopKeepsAccounted(s: Client)
    requires Accounted(s) && s.stack != [] && HeldBy(Top(s)) == multiset{}
    ensures Accounted(Pop(s))
  {
    hide Held;
    forall k: nat ensures Places(s, k) == Places(Pop(s), k) { PlacesAfterPop(s, k); }
  }

  lemma ResumeKeepsAccounted(s: Client)
    requires Accounted(s) && s.stack != []
    ensures Accounted(Resume(s))
  {
    hide Held, Places;
    var s1 := Pop(s);
    match Top(s)
    case Loading(command) =>
      PopKeepsAccounted(s);
      StartWorkerKeepsAccounted(s1);
      BeginRunningKeepsAccounted(s1.(worker := Some(s.workers), workers := s.workers + 1), command);
    case Running(id, generation, command) =>
      PoppedRequestMoves(s, id);
      RegisterKeepsAccounted(s1, id, generation, command);
    case TimeoutReset(id) =>
      PoppedRequestMoves(s, id);
      SettleKeepsAccounted(s1, id, Rejected(TimedOut), None);
    case DisposeReset =>
      PopKeepsAccounted(s);
      PushKeepsAccounted(s1, Tail);
    case Tail =>
      PopKeepsAccounted(s);
  }

  lemma StartWorkerKeepsAccounted(s: Client)
    requires Accounted(s)
    ensures Accounted(s.(worker := Some(s.workers), workers := s.workers + 1))
  {
    hide Held;
    var s' := s.(worker := Some(s.workers), workers := s.workers + 1);
    assert forall k: nat :: Places(s', k) == Places(s, k);
    assert Accounted(s');
  }

  lemma ClockKeepsAccounted(s: Client, t: int)
    requires Accounted(s)
    ensures Accounted(s.(now := t))
  {
    hide Held;
    assert forall k: nat :: Places(s.(now := t), k) == Places(s, k);
  }

  lemma StepKeepsAccounted(s: Client, step: Step)
    requires Accounted(s) && Enabled(s, step)
    ensures Accounted(Next(s, step))
  {
    hide Held, Accounted;
    match step
    case Request(command) =>
      if |s.pending| < MAX_PENDING {
        if s.worker.Some? {
          BeginRunningKeepsAccounted(s, command);
        } else {
          PushKeepsAccounted(s, Loading(command));
        }
      }
    case Reset => ResetKeepsAccounted(s, ResetByUser, Tail);
    case Dispose => ResetKeepsAccounted(s, Disposed, DisposeReset);
    case CallbackReturns => ResumeKeepsAccounted(s);
    case Response(w, id, reply) => ReceiveKeepsAccounted(s, w, id, reply);
    case TimerFires(h) => FireKeepsAccounted(s, h);
    case WorkerError => ResetKeepsAccounted(s, WorkerFailed, Tail);
    case ClockAdvances(t) => ClockKeepsAccounted(s, t);
  }

  // -------------------------------------------------------------------------
  // Timers
  // -------------------------------------------------------------------------

  lemma ResetKeepsTimers(s: Client, reason: Reason, after: Frame)
    requires TimersArePending(s)
    ensures ResetWorker(s, reason, after).timers == map[]
    ensures TimersArePending(ResetWorker(s, reason, after))
  {
    forall h | h in s.timers
      ensures h in set id | id in s.pending :: s.pending[id]
    {
      assert s.timers[h].id in s.pending;
    }
  }

  lemma RegisterKeepsTimers(s: Client, id: nat, generation: nat, command: Command)
    requires TimersArePending(s) && id !in s.pending
    ensures TimersArePending(Register(s, id, generation, command))
  {
  }

  lemma ResumeKeepsTimers(s: Client)
    requires TimersArePending(s) && Accounted(s) && s.stack != []
    ensures TimersArePending(Resume(s))
  {
    hide Held, Places, Register;
    HeldIsNotPending(s);
    match Top(s)
    case Loading(command) =>
    case Running(id, generation, command) => RegisterKeepsTimers(Pop(s), id, generation, command);
    case TimeoutReset(id) =>
    case DisposeReset =>
    case Tail =>
  }

  lemma StepKeepsTimers(s: Client, step: Step)
    requires TimersArePending(s) && Accounted(s) && Enabled(s, step)
    ensures TimersArePending(Next(s, step))
  {
    hide Held, Places, ResetWorker, Receive, FireTimer, Resume;
    match step
    case Request(command) =>
    case Reset => ResetKeepsTimers(s, ResetByUser, Tail);
    case Dispose => ResetKeepsTimers(s, Disposed, DisposeReset);
    case CallbackReturns => ResumeKeepsTimers(s);
    case Response(w, id, reply) => ReceiveKeepsTimers(s, w, id, reply);
    case TimerFires(h) => FireKeepsTimers(s, h);
    case WorkerError => ResetKeepsTimers(s, WorkerFailed, Tail);
    case ClockAdvances(t) =>
  }

  lemma HeldIsNotPending(s: Client)
    requires Accounted(s) && s.stack != []
    ensures Top(s).Running? ==> Top(s).id !in s.pending && Top(s).id !in s.settled
    ensures Top(s).TimeoutReset? ==> Top(s).id !in s.pending && Top(s).id !in s.settled
  {
    if Top(s).Running? || Top(s).TimeoutReset? {
      PoppedRequestMoves(s, Top(s).id);
      assert Places(Pop(s), Top(s).id) == 0;
    }
  }

  /** No other frame holds the request of the top frame. */
  lemma TopIsApart(s: Client, f: Frame)
    requires Accounted(s) && s.stack != [] && f in Pop(s).stack
    requires Top(s).Running? || Top(s).TimeoutReset?
    ensures f.Running? || f.TimeoutReset? ==> f.id != Top(s).id
  {
    PoppedRequestMoves(s, Top(s).id);
    assert Places(Pop(s), Top(s).id) == 0;
    MemberIsHeld(Pop(s).stack, f);
  }

  lemma ReceiveKeepsTimers(s: Client, w: WorkerId, id: nat, reply: Reply)
    requires TimersArePending(s)
    ensures TimersArePending(Receive(s, w, id, reply))
  {
    if id in s.pending {
      var s1 := s.(timers := s.timers - {s.pending[id]}, pending := s.pending - {id});
      var outcome := if reply.Failure? then Rejected(EvaluationFailed(reply.message)) else Resolved(reply.payload);
      var s2 := Settle(s1, id, outcome, Some(w));
      assert TimersArePending(s1);
      assert TimersArePending(s2);
      if reply.Failure? && reply.fatal {
        ResetKeepsTimers(s2, SessionReset(reply.message), Tail);
      }
    }
  }

  lemma FireKeepsTimers(s: Client, h: nat)
    requires TimersArePending(s) && h in s.timers
    ensures TimersArePending(FireTimer(s, h))
  {
    var id := s.timers[h].id;
    var s2 := s.(timers := s.timers - {h}, pending := s.pending - {id});
    assert TimersArePending(s2);
    ResetKeepsTimers(s2, TimedOut, TimeoutReset(id));
  }

  // -------------------------------------------------------------------------
  // Deadlines
  // -------------------------------------------------------------------------

  lemma ResetKeepsTimely(s: Client, reason: Reason, after: Frame)
    requires Timely(s) && TimersArePending(s)
    requires after.TimeoutReset? ==> after.id in s.due && s.now <= s.due[after.id]
    ensures Timely(ResetWorker(s, reason, after))
  {
    ResetKeepsTimers(s, reason, after);
  }

  lemma ReceiveKeepsTimely(s: Client, w: WorkerId, id: nat, reply: Reply)
    requires Timely(s) && TimersArePending(s)
    ensures Timely(Receive(s, w, id, reply))
  {
    if id in s.pending {
      var s1 := s.(timers := s.timers - {s.pending[id]}, pending := s.pending - {id});
      var outcome := if reply.Failure? then Rejected(EvaluationFailed(reply.message)) else Resolved(reply.payload);
      var s2 := Settle(s1, id, outcome, Some(w));
      assert TimersArePending(s2);
      assert Timely(s2);
      if reply.Failure? && reply.fatal {
        ResetKeepsTimely(s2, SessionReset(reply.message), Tail);
      }
    }
  }

  lemma FireKeepsTimely(s: Client, h: nat)
    requires Timely(s) && TimersArePending(s) && h in s.timers
    ensures Timely(FireTimer(s, h))
  {
    var id := s.timers[h].id;
    var s2 := s.(timers := s.timers - {h}, pending := s.pending - {id});
    assert TimersArePending(s2);
    assert Timely(s2);
    ResetKeepsTimely(s2, TimedOut, TimeoutReset(id));
  }

  lemma ResumeKeepsTimely(s: Client)
    requires Timely(s) && TimersArePending(s) && Accounted(s) && s.stack != []
    ensures Timely(Resume(s))
  {
    hide Held, Places, Accounted, Register;
    HeldIsNotPending(s);
    var s1 := Pop(s);
    assert forall f :: f in s1.stack ==> f in s.stack;
    assert Top(s) in s.stack;
    match Top(s)
    case Loading(command) =>
    case Running(id, generation, command) =>
      forall f | f in s1.stack && f.TimeoutReset? ensures f.id != id { TopIsApart(s, f); }
      RegisterKeepsTimely(s1, id, generation, command);
    case TimeoutReset(id) =>
    case DisposeReset =>
    case Tail =>
  }

  lemma RegisterKeepsTimely(s: Client, id: nat, generation: nat, command: Command)
    requires Timely(s) && TimersArePending(s)
    requires id !in s.pending && id !in s.settled
    requires forall f :: f in s.stack && f.TimeoutReset? ==> f.id != id
    ensures Timely(Register(s, id, generation, command))
  {
  }

  lemma StepKeepsTimely(s: Client, step: Step)
    requires Timely(s) && TimersArePending(s) && Accounted(s) && Enabled(s, step)
    ensures Timely(Next(s, step))
  {
    hide Held, Places, ResetWorker, Receive, FireTimer, Resume;
    match step
    case Request(command) =>
    case Reset => ResetKeepsTimely(s, ResetByUser, Tail);
    case Dispose => ResetKeepsTimely(s, Disposed, DisposeReset);
    case CallbackReturns => ResumeKeepsTimely(s);
    case Response(w, id, reply) => ReceiveKeepsTimely(s, w, id, reply);
    case TimerFires(h) => FireKeepsTimely(s, h);
    case WorkerError => ResetKeepsTimely(s, WorkerFailed, Tail);
    case ClockAdvances(t) =>
  }

  // -------------------------------------------------------------------------
  // Posting
  // -------------------------------------------------------------------------

  lemma PopKeepsPostedOnce(s: Client)
    requires PostedOnce(s) && s.stack != []
    ensures PostedOnce(Pop(s))
  {
    assert forall f :: f in Pop(s).stack ==> f in s.stack;
  }

  lemma BeginRunningKeepsPostedOnce(s: Client, command: Command)
    requires PostedOnce(s) && s.worker.Some?
    ensures PostedOnce(BeginRunning(s, command))
  {
  }

  lemma RegisterKeepsPostedOnce(s: Client, id: nat, generation: nat, command: Command)
    requires PostedOnce(s) && 1 <= id <= s.nextId && generation <= s.generation
    requires forall p :: p in s.posts ==> p.id != id
    requires forall f :: f in s.stack && f.Running? ==> f.id != id
    ensures PostedOnce(Register(s, id, generation, command))
  {
  }

  lemma SamePosts(s: Client, s': Client)
    requires PostedOnce(s) && s'.posts == s.posts && s'.nextId == s.nextId && s'.generation == s.generation
    requires s'.worker == s.worker && s'.workers == s.workers
    requires forall f :: f in s'.stack && f.Running? ==> f in s.stack
    ensures PostedOnce(s')
  {
  }

  lemma StartWorkerKeepsPostedOnce(s: Client)
    requires PostedOnce(s)
    ensures PostedOnce(s.(worker := Some(s.workers), workers := s.workers + 1))
  {
  }

  lemma ExecutorKeepsPostedOnce(s: Client)
    requires PostedOnce(s) && Accounted(s) && s.stack != [] && Top(s).Running?
    ensures PostedOnce(Resume(s))
  {
    hide Held, Places;
    var s1 := Pop(s);
    PopKeepsPostedOnce(s);
    assert Top(s) in s.stack;
    forall f | f in s1.stack && f.Running? ensures f.id != Top(s).id { TopIsApart(s, f); }
    RegisterKeepsPostedOnce(s1, Top(s).id, Top(s).generation, Top(s).command);
  }

  lemma ResumeKeepsPostedOnce(s: Client)
    requires PostedOnce(s) && Accounted(s) && s.stack != []
    ensures PostedOnce(Resume(s))
  {
    hide Accounted, PostedOnce;
    PopKeepsPostedOnce(s);
    var s1 := Pop(s);
    match Top(s)
    case Loading(command) =>
      StartWorkerKeepsPostedOnce(s1);
      BeginRunningKeepsPostedOnce(s1.(worker := Some(s.workers), workers := s.workers + 1), command);
    case Running(id, generation, command) => ExecutorKeepsPostedOnce(s);
    case TimeoutReset(id) => SamePosts(s1, Resume(s));
    case DisposeReset => SamePosts(s1, Resume(s));
    case Tail =>
  }

  lemma ResetKeepsPostedOnce(s: Client, reason: Reason, after: Frame)
    requires PostedOnce(s) && !after.Running?
    ensures PostedOnce(ResetWorker(s, reason, after))
  {
  }

  lemma StepKeepsPostedOnce(s: Client, step: Step)
    requires PostedOnce(s) && Accounted(s) && Enabled(s, step)
    ensures PostedOnce(Next(s, step))
  {
    hide Held, Places, RejectAll;
    match step
    case Request(command) =>
      if s.worker.Some? {
        BeginRunningKeepsPostedOnce(s, command);
      }
    case Reset => ResetKeepsPostedOnce(s, ResetByUser, Tail);
    case Dispose => ResetKeepsPostedOnce(s, Disposed, DisposeReset);
    case CallbackReturns => ResumeKeepsPostedOnce(s);
    case Response(w, id, reply) => ReceiveKeepsPostedOnce(s, w, id, reply);
    case TimerFires(h) => FireKeepsPostedOnce(s, h);
    case WorkerError => ResetKeepsPostedOnce(s, WorkerFailed, Tail);
    case ClockAdvances(t) =>
  }

  lemma ReceiveKeepsPostedOnce(s: Client, w: WorkerId, id: nat, reply: Reply)
    requires PostedOnce(s)
    ensures PostedOnce(Receive(s, w, id, reply))
  {
    if id in s.pending && reply.Failure? && reply.fatal {
      var s1 := s.(timers := s.timers - {s.pending[id]}, pending := s.pending - {id});
      ResetKeepsPostedOnce(Settle(s1, id, Rejected(EvaluationFailed(reply.message)), Some(w)), SessionReset(reply.message), Tail);
    }
  }

  lemma FireKeepsPostedOnce(s: Client, h: nat)
    requires PostedOnce(s) && h in s.timers
    ensures PostedOnce(FireTimer(s, h))
  {
    var id := s.timers[h].id;
    ResetKeepsPostedOnce(s.(timers := s.timers - {h}, pending := s.pending - {id}), TimedOut, TimeoutReset(id));
  }

  // -------------------------------------------------------------------------
  // Answers
  // -------------------------------------------------------------------------

  lemma PostedStays(s: Client, s': Client, w: WorkerId, id: nat)
    requires s.posts <= s'.posts && Posted(s, w, id)
    ensures Posted(s', w, id)
  {
    var p :| p in s.posts && p.worker == w && p.id == id;
    assert p in s'.posts;
  }

  lemma RejectAllKeepsAnswers(s: Client, reason: Reason)
    requires AnsweredByItsWorker(s)
    ensures AnsweredByItsWorker(RejectAll(s, reason))
  {
    var s' := RejectAll(s, reason);
    forall id | id in s'.settled && s'.settled[id].from.Some?
      ensures Posted(s', s'.settled[id].from.value, id)
    {
      PostedStays(s, s', s'.settled[id].from.value, id);
    }
  }

  lemma SameSettlementsKeepAnswers(s: Client, s': Client)
    requires AnsweredByItsWorker(s) && s.posts <= s'.posts && s'.settled == s.settled
    ensures AnsweredByItsWorker(s')
  {
    forall id | id in s'.settled && s'.settled[id].from.Some?
      ensures Posted(s', s'.settled[id].from.value, id)
    {
      PostedStays(s, s', s'.settled[id].from.value, id);
    }
  }

  lemma SettleKeepsAnswers(s: Client, id: nat, outcome: Outcome, from: Option<WorkerId>)
    requires AnsweredByItsWorker(s)
    requires from.Some? ==> Posted(s, from.value, id)
    requires outcome.Resolved? ==> from.Some?
    ensures AnsweredByItsWorker(Settle(s, id, outcome, from))
  {
    var s' := Settle(s, id, outcome, from);
    forall k | k in s'.settled && s'.settled[k].from.Some?
      ensures Posted(s', s'.settled[k].from.value, k)
    {
      PostedStays(s, s', s'.settled[k].from.value, k);
    }
  }

  lemma ResetKeepsAnswers(s: Client, reason: Reason, after: Frame)
    requires AnsweredByItsWorker(s)
    ensures AnsweredByItsWorker(ResetWorker(s, reason, after))
  {
    hide AnsweredByItsWorker, RejectAll;
    var s1 := s.(generation := s.generation + 1, worker := None);
    SameSettlementsKeepAnswers(s, s1);
    RejectAllKeepsAnswers(s1, reason);
    SameSettlementsKeepAnswers(RejectAll(s1, reason), ResetWorker(s, reason, after));
  }

  lemma ReceiveKeepsAnswers(s: Client, w: WorkerId, id: nat, reply: Reply)
    requires AnsweredByItsWorker(s) && Posted(s, w, id)
    ensures AnsweredByItsWorker(Receive(s, w, id, reply))
  {
    hide AnsweredByItsWorker, ResetWorker;
    if id in s.pending {
      var s1 := s.(timers := s.timers - {s.pending[id]}, pending := s.pending - {id});
      var outcome := if reply.Failure? then Rejected(EvaluationFailed(reply.message)) else Resolved(reply.payload);
      SameSettlementsKeepAnswers(s, s1);
      PostedStays(s, s1, w, id);
      var s2 := Settle(s1, id, outcome, Some(w));
      SettleKeepsAnswers(s1, id, outcome, Some(w));
      if reply.Failure? && reply.fatal {
        ResetKeepsAnswers(s2, SessionReset(reply.message), Tail);
      } else {
        SameSettlementsKeepAnswers(s2, Push(s2, Tail));
      }
    }
  }

  lemma FireKeepsAnswers(s: Client, h: nat)
    requires AnsweredByItsWorker(s) && h in s.timers
    ensures AnsweredByItsWorker(FireTimer(s, h))
  {
    hide AnsweredByItsWorker, ResetWorker;
    var id := s.timers[h].id;
    var s1 := s.(timers := s.timers - {h});
    SameSettlementsKeepAnswers(s, s1);
    var s2 := s1.(pending := s.pending - {id});
    SameSettlementsKeepAnswers(s, s2);
    ResetKeepsAnswers(s2, TimedOut, TimeoutReset(id));
  }

  lemma ResumeKeepsAnswers(s: Client)
    requires AnsweredByItsWorker(s) && s.stack != []
    ensures AnsweredByItsWorker(Resume(s))
  {
    hide AnsweredByItsWorker;
    SameSettlementsKeepAnswers(s, Pop(s));
    if Top(s).TimeoutReset? {
      SettleKeepsAnswers(Pop(s), Top(s).id, Rejected(TimedOut), None);
    } else {
      SameSettlementsKeepAnswers(s, Resume(s));
    }
  }

  lemma StepKeepsAnswers(s: Client, step: Step)
    requires AnsweredByItsWorker(s) && Enabled(s, step)
    ensures AnsweredByItsWorker(Next(s, step))
  {
    hide AnsweredByItsWorker, ResetWorker, Receive, FireTimer, Resume;
    match step
    case Request(command) => SameSettlementsKeepAnswers(s, BeginRequest(s, command));
    case Reset => ResetKeepsAnswers(s, ResetByUser, Tail);
    case Dispose => ResetKeepsAnswers(s, Disposed, DisposeReset);
    case CallbackReturns => ResumeKeepsAnswers(s);
    case Response(w, id, reply) => ReceiveKeepsAnswers(s, w, id, reply);
    case TimerFires(h) => FireKeepsAnswers(s, h);
    case WorkerError => ResetKeepsAnswers(s, WorkerFailed, Tail);
    case ClockAdvances(t) => SameSettlementsKeepAnswers(s, s.(now := t));
  }

  // -------------------------------------------------------------------------
  // Every run
  // -------------------------------------------------------------------------

  lemma FreshIsSound(timeoutMs: nat)
    ensures Sound(Fresh(timeoutMs))
  {
    assert forall id: nat :: Places(Fresh(timeoutMs), id) == 0;
  }

  lemma StepKeepsSound(s: Client, step: Step)
    requires Sound(s) && Enabled(s, step)
    ensures Sound(Next(s, step))
  {
    hide Accounted, TimersArePending, Timely, PostedOnce, AnsweredByItsWorker, Next;
    StepKeepsAccounted(s, step);
    StepKeepsTimers(s, step);
    StepKeepsTimely(s, step);
    StepKeepsPostedOnce(s, step);
    StepKeepsAnswers(s, step);
  }

  /** Main safety theorem: over every interleaving and any re-entrance, each accepted request is
      in one place, timers are exactly those of pending requests, nothing settles late or twice,
      and only the worker a request was posted to answers it. */
  lemma {:induction false} RunsAreSound(s: Client, steps: seq<Step>)
    requires Sound(s) && Possible(s, steps)
    ensures Sound(After(s, steps))
    decreases |steps|
  {
    hide Sound, Next, Enabled;
    if steps != [] {
      StepKeepsSound(s, steps[0]);
      RunsAreSound(Next(s, steps[0]), steps[1..]);
    }
  }
}
