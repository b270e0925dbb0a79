/** The worker's side of the browser runtime (`website/src/runtime/r-runtime-worker.ts`).

  Each message is chained onto `queue`, so one task runs at a time although a task may wait for
  the interpreter to be initialised while more messages arrive.  The interpreter is a parameter:
  a fresh session and what evaluating a command does to a session.
 */
module RuntimeWorker {
  import opened Wrappers
  import opened RuntimeProtocol

  const MAX_CODE_LENGTH := 64 * 1024
  const MAX_FILE_BYTES := 1024 * 1024

  datatype Request = Request(id: nat, command: Command)

  datatype Message = Message(id: nat, reply: Reply)

  datatype Engine<!S> = Engine(initial: S, evaluate: (S, Command) -> (S, Reply))

  /** The `initPromise` variable and, once it is fulfilled, the session it produced. */
  datatype Boot<S> = NotStarted | Starting | Ready(session: S) | Broken(reply: Reply)

  /** `waiting`: the task of `queue[finished]` awaits the session. */
  datatype State<S> = State(queue: seq<Request>, finished: nat, waiting: bool, boot: Boot<S>, outbox: seq<Message>)

  const CODE_TOO_LONG := Failure("Runtime code is limited to 65,536 characters", false)
  const FILE_TOO_LARGE := Failure("Files are limited to 1 MiB each", false)

  /** The answer to a command that is refused before the session is awaited. */
  function Early(command: Command): Option<Reply> {
    if command.Run? && |command.code| > MAX_CODE_LENGTH then Some(CODE_TOO_LONG) else None
  }

  /** What a task does with the session it awaited. */
  function Perform<S>(engine: Engine<S>, session: S, command: Command): (S, Reply) {
    if command.ImportFile? && |command.bytes| > MAX_FILE_BYTES then (session, FILE_TOO_LARGE)
    else engine.evaluate(session, command)
  }

  // -------------------------------------------------------------------------
  // The script
  // -------------------------------------------------------------------------

  class Worker<S(!new)> {
    const engine: Engine<S>
    var queue: seq<Request>
    var finished: nat
    var waiting: bool
    var boot: Boot<S>
    var outbox: seq<Message>

    ghost function View(): State<S>
      reads this
    {
      State(queue, finished, waiting, boot, outbox)
    }

    constructor (e: Engine<S>)
      ensures engine == e && View() == Started()
    {
      engine := e;
      queue, finished, waiting, boot, outbox := [], 0, false, NotStarted, [];
    }

    /** `self.onmessage` */
    method OnMessage(request: Request)
      modifies this`queue
      ensures View() == old(View()).(queue := old(queue) + [request])
    {
      queue := queue + [request];
    }

    method PostReply(reply: Reply)
      requires finished < |queue|
      modifies this`outbox, this`finished
      ensures View() == Answered(old(View()), reply)
    {
      outbox := outbox + [Message(queue[finished].id, reply)];
      finished := finished + 1;
    }

    /** The next task runs up to `await getSession()`. */
    method StartTask()
      requires CanStart(View())
      modifies this
      ensures View() == Start(old(View()))
    {
      var command := queue[finished].command;
      if command.Run? && |command.code| > MAX_CODE_LENGTH {
        PostReply(CODE_TOO_LONG);
        return;
      }
      waiting := true;
      if boot.NotStarted? {
        boot := Starting;
      }
    }

    /** `init().then(() => new WasmRSession())` is fulfilled or rejected. */
    method BootSettled(failure: Option<Reply>)
      requires boot.Starting? && (failure.Some? ==> failure.value.Failure?)
      modifies this`boot
      ensures View() == BootSettles(engine, old(View()), failure)
    {
      boot := if failure.Some? then Broken(failure.value) else Ready(engine.initial);
    }

    /** The waiting task goes on to its `post`. */
    method FinishTask()
      requires CanFinish(View())
      modifies this
      ensures View() == Finish(engine, old(View()))
    {
      waiting := false;
      match boot {
        case Broken(reply) =>
          PostReply(reply);
        case Ready(session) =>
          var command := queue[finished].command;
          if command.ImportFile? && |command.bytes| > MAX_FILE_BYTES {
            PostReply(FILE_TOO_LARGE);
          } else {
            var (next, reply) := engine.evaluate(session, command);
            boot := Ready(next);
            PostReply(reply);
          }
      }
    }
  }

  function Started<S>(): State<S> {
    State([], 0, false, NotStarted, [])
  }

  predicate CanStart<S>(st: State<S>) {
    !st.waiting && st.finished < |st.queue|
  }

  predicate CanFinish<S>(st: State<S>) {
    st.waiting && st.finished < |st.queue| && (st.boot.Ready? || st.boot.Broken?)
  }

  function Answered<S>(st: State<S>, reply: Reply): State<S>
    requires st.finished < |st.queue|
  {
    st.(outbox := st.outbox + [Message(st.queue[st.finished].id, reply)], finished := st.finished + 1)
  }

  function Start<S>(st: State<S>): State<S>
    requires CanStart(st)
  {
    var early := Early(st.queue[st.finished].command);
    if early.Some? then Answered(st, early.value)
    else st.(waiting := true, boot := if st.boot.NotStarted? then Starting else st.boot)
  }

  function BootSettles<S>(engine: Engine<S>, st: State<S>, failure: Option<Reply>): State<S> {
    st.(boot := if failure.Some? then Broken(failure.value) else Ready(engine.initial))
  }

  function Finish<S>(engine: Engine<S>, st: State<S>): State<S>
    requires CanFinish(st)
  {
    var st1 := st.(waiting := false);
    match st.boot
    case Broken(reply) => Answered(st1, reply)
    case Ready(session) =>
      var (next, reply) := Perform(engine, session, st.queue[st.finished].command);
      Answered(st1.(boot := Ready(next)), reply)
  }

  // -------------------------------------------------------------------------
  // The sequential server
  // -------------------------------------------------------------------------

  /** Whether the one initialisation of this worker succeeded. */
  datatype Verdict = Booted | Refused(reply: Reply)

  /** The session left by a sequence of commands, from a fresh one. */
  function SessionAfter<S>(engine: Engine<S>, commands: seq<Command>): S {
    if commands == [] then engine.initial
    else
      var before := SessionAfter(engine, commands[..|commands| - 1]);
      var last := commands[|commands| - 1];
      if Early(last).Some? then before else Perform(engine, before, last).0
  }

  /** The answer of a server that evaluates one command after the other on one session. */
  function Answer<S>(engine: Engine<S>, verdict: Verdict, before: seq<Command>, command: Command): Reply {
    if Early(command).Some? then Early(command).value
    else match verdict
      case Refused(reply) => reply
      case Booted => Perform(engine, SessionAfter(engine, before), command).1
  }

  function Commands(requests: seq<Request>): (cs: seq<Command>)
    ensures |cs| == |requests|
    ensures forall i :: 0 <= i < |cs| ==> cs[i] == requests[i].command
  {
    seq(|requests|, i requires 0 <= i < |requests| => requests[i].command)
  }

  function VerdictOf<S>(st: State<S>): Verdict {
    if st.boot.Broken? then Refused(st.boot.reply) else Booted
  }

  /** The worker has answered its first `finished` requests, in order and one reply each, as the
      sequential server does, and its session is the one those commands leave. */
  ghost predicate Sequential<S(!new)>(engine: Engine<S>, st: State<S>) {
    && st.finished <= |st.queue| && |st.outbox| == st.finished
    && (forall k :: 0 <= k < st.finished ==>
          st.outbox[k] == Message(st.queue[k].id, Answer(engine, VerdictOf(st), Commands(st.queue[..k]), st.queue[k].command)))
    && (st.waiting ==> st.finished < |st.queue| && Early(st.queue[st.finished].command).None? && !st.boot.NotStarted?)
    && (st.boot.NotStarted? || st.boot.Starting? ==>
          forall k :: 0 <= k < st.finished ==> Early(st.queue[k].command).Some?)
    && (st.boot.Ready? ==> st.boot.session == SessionAfter(engine, Commands(st.queue[..st.finished])))
  }

  /** Commands refused early leave the session fresh. */
  lemma {:induction false} EarlyKeepsFresh<S(!new)>(engine: Engine<S>, commands: seq<Command>)
    requires forall k :: 0 <= k < |commands| ==> Early(commands[k]).Some?
    ensures SessionAfter(engine, commands) == engine.initial
  {
    if commands != [] {
      EarlyKeepsFresh(engine, commands[..|commands| - 1]);
    }
  }

  lemma CommandsPrefix(queue: seq<Request>, n: nat)
    requires n < |queue|
    ensures Commands(queue[..n + 1]) == Commands(queue[..n]) + [queue[n].command]
  {
    assert queue[..n + 1][..n] == queue[..n];
  }

  lemma MessageKeepsSequential<S(!new)>(engine: Engine<S>, st: State<S>, request: Request)
    requires Sequential(engine, st)
    ensures Sequential(engine, st.(queue := st.queue + [request]))
  {
    var queue := st.queue + [request];
    assert forall k :: 0 <= k <= st.finished ==> queue[..k] == st.queue[..k];
  }

  lemma AnsweredKeepsSequential<S(!new)>(engine: Engine<S>, st: State<S>, reply: Reply)
    requires Sequential(engine, st) && !st.waiting && st.finished < |st.queue|
    requires reply == Answer(engine, VerdictOf(st), Commands(st.queue[..st.finished]), st.queue[st.finished].command)
    requires Early(st.queue[st.finished].command).Some?
    ensures Sequential(engine, Answered(st, reply))
  {
    SessionAfterNext(engine, st.queue, st.finished);
    hide SessionAfter, Answer, Early, Commands, Perform, Evaluated, Admitted;
    var st' := Answered(st, reply);
    forall k | 0 <= k < st'.finished
      ensures st'.outbox[k] == Message(st'.queue[k].id, Answer(engine, VerdictOf(st'), Commands(st'.queue[..k]), st'.queue[k].command)) {
      assert k < st.finished ==> st'.outbox[k] == st.outbox[k];
    }
  }

  lemma SessionAfterNext<S(!new)>(engine: Engine<S>, queue: seq<Request>, n: nat)
    requires n < |queue|
    ensures SessionAfter(engine, Commands(queue[..n + 1]))
      == if Early(queue[n].command).Some? then SessionAfter(engine, Commands(queue[..n]))
         else Perform(engine, SessionAfter(engine, Commands(queue[..n])), queue[n].command).0
  {
    CommandsPrefix(queue, n);
    var cs := Commands(queue[..n + 1]);
    assert cs[..|cs| - 1] == Commands(queue[..n]);
  }

  lemma StartKeepsSequential<S(!new)>(engine: Engine<S>, st: State<S>)
    requires Sequential(engine, st) && CanStart(st)
    ensures Sequential(engine, Start(st))
  {
    var early := Early(st.queue[st.finished].command);
    if early.Some? {
      AnsweredKeepsSequential(engine, st, early.value);
    }
  }

  lemma BootKeepsSequential<S(!new)>(engine: Engine<S>, st: State<S>, failure: Option<Reply>)
    requires Sequential(engine, st) && st.boot.Starting?
    ensures Sequential(engine, BootSettles(engine, st, failure))
  {
    EarlyKeepsFresh(engine, Commands(st.queue[..st.finished]));
  }

  /** An evaluation, failed or not, is one step of the sequential server. */
  lemma FinishKeepsSequential<S(!new)>(engine: Engine<S>, st: State<S>)
    requires Sequential(engine, st) && CanFinish(st)
    ensures Sequential(engine, Finish(engine, st))
  {
    CommandsPrefix(st.queue, st.finished);
    var cs := Commands(st.queue[..st.finished + 1]);
    assert cs[..|cs| - 1] == Commands(st.queue[..st.finished]);
    assert cs[|cs| - 1] == st.queue[st.finished].command;
  }

  // -------------------------------------------------------------------------
  // What the server answers, by the interpreter alone
  // -------------------------------------------------------------------------

  /** The session after evaluating commands one after the other, each on what the one before it left. */
  function Evaluated<S>(engine: Engine<S>, session: S, commands: seq<Command>): S {
    if commands == [] then session
    else Evaluated(engine, engine.evaluate(session, commands[0]).0, commands[1..])
  }

  /** Code of at most 65,536 characters and files of at most 1,048,576 bytes. */
  predicate WithinLimits(command: Command) {
    (command.Run? ==> |command.code| <= 65_536) && (command.ImportFile? ==> |command.bytes| <= 1_048_576)
  }

  function Admitted(commands: seq<Command>): (r: seq<Command>)
    ensures |r| <= |commands| && forall c :: c in r ==> WithinLimits(c)
    ensures (forall c :: c in commands ==> WithinLimits(c)) ==> r == commands
  {
    if commands == [] then []
    else
      var last := commands[|commands| - 1];
      assert commands == commands[..|commands| - 1] + [last];
      Admitted(commands[..|commands| - 1]) + if WithinLimits(last) then [last] else []
  }

  lemma {:induction false} EvaluatedOneMore<S>(engine: Engine<S>, session: S, commands: seq<Command>, command: Command)
    ensures Evaluated(engine, session, commands + [command]) == engine.evaluate(Evaluated(engine, session, commands), command).0
    decreases |commands|
  {
    if commands == [] {
      assert [] + [command] == [command];
    } else {
      EvaluatedOneMore(engine, engine.evaluate(session, commands[0]).0, commands[1..], command);
      assert (commands + [command])[1..] == commands[1..] + [command];
    }
  }

  /** The session is what the interpreter makes of the commands within the limits, in order: one session,
      that each command leaves to the next. */
  lemma {:induction false} SessionIsKept<S>(engine: Engine<S>, commands: seq<Command>)
    ensures SessionAfter(engine, commands) == Evaluated(engine, engine.initial, Admitted(commands))
  {
    if commands != [] {
      var before, last := commands[..|commands| - 1], commands[|commands| - 1];
      SessionIsKept(engine, before);
      EvaluatedOneMore(engine, engine.initial, Admitted(before), last);
      assert WithinLimits(last) || Admitted(commands) == Admitted(before);
    }
  }

  /** The answer to a command behind others: longer code is refused at once, then a broken interpreter reports
      its failure, larger files are refused, and everything else is evaluated on that session. */
  ghost predicate IsAnswer<S(!new)>(engine: Engine<S>, verdict: Verdict, before: seq<Command>, command: Command, reply: Reply) {
    reply ==
      if command.Run? && |command.code| > 65_536 then Failure("Runtime code is limited to 65,536 characters", false)
      else if verdict.Refused? then verdict.reply
      else if command.ImportFile? && |command.bytes| > 1_048_576 then Failure("Files are limited to 1 MiB each", false)
      else engine.evaluate(Evaluated(engine, engine.initial, Admitted(before)), command).1
  }

  lemma AnswerIs<S(!new)>(engine: Engine<S>, verdict: Verdict, before: seq<Command>, command: Command)
    ensures IsAnswer(engine, verdict, before, command, Answer(engine, verdict, before, command))
  {
    SessionIsKept(engine, before);
  }

  // -------------------------------------------------------------------------
  // Every message is answered
  // -------------------------------------------------------------------------

  /** What each step of a task does.  A task that is not refused at once waits, and the first one to wait starts the
      interpreter; that is fulfilled or broken for good; and then it answers and ends. */
  lemma TaskSteps<S(!new)>(engine: Engine<S>, st: State<S>, failure: Option<Reply>)
    ensures CanStart(st) ==>
      var st', c := Start(st), st.queue[st.finished].command;
      if c.Run? && |c.code| > 65_536 then
        && !st'.waiting && st'.boot == st.boot && st'.finished == st.finished + 1 && |st'.outbox| == |st.outbox| + 1
        && st'.outbox[|st.outbox|].id == st.queue[st.finished].id
      else st'.waiting && st'.finished == st.finished && st'.outbox == st.outbox && st'.boot == if st.boot.NotStarted? then Starting else st.boot
    ensures BootSettles(engine, st, failure) == st.(boot := if failure.Some? then Broken(failure.value) else Ready(engine.initial))
    ensures st.waiting && st.finished < |st.queue| && (st.boot.Ready? || st.boot.Broken?) ==>
      && CanFinish(st)
      && var st' := Finish(engine, st);
      && !st'.waiting && st'.finished == st.finished + 1 && |st'.outbox| == |st.outbox| + 1 && st'.queue == st.queue
      && st'.outbox[|st.outbox|].id == st.queue[st.finished].id
      && (st.boot.Broken? ==> st'.boot == st.boot && st'.outbox[|st.outbox|].reply == st.boot.reply)
  {
  }

  /** One task after the other, with an interpreter that starts. */
  function Drained<S(!new)>(engine: Engine<S>, st: State<S>): State<S>
    requires st.finished <= |st.queue|
    requires st.waiting ==> st.finished < |st.queue| && !st.boot.NotStarted?
    decreases |st.queue| - st.finished, !st.waiting, st.boot.Starting?
  {
    if st.finished == |st.queue| then st
    else if CanStart(st) then Drained(engine, Start(st))
    else if st.boot.Starting? then Drained(engine, BootSettles(engine, st, None))
    else Drained(engine, Finish(engine, st))
  }

  /** No task can block the chain: whatever the commands are, all messages get their answers, in order and one each,
      and these are the answers of the sequential server. */
  lemma {:induction false} AllAreAnswered<S(!new)>(engine: Engine<S>, st: State<S>)
    requires Sequential(engine, st)
    ensures var st' := Drained(engine, st);
      && Sequential(engine, st') && st'.queue == st.queue
      && |st'.outbox| == st'.finished == |st.queue| && st.outbox <= st'.outbox
    decreases |st.queue| - st.finished, !st.waiting, st.boot.Starting?
  {
    TaskSteps(engine, st, None);
    hide Sequential;
    SequentialLength(engine, st);
    if st.finished < |st.queue| {
      if CanStart(st) {
        StartKeepsSequential(engine, st);
        AllAreAnswered(engine, Start(st));
      } else if st.boot.Starting? {
        BootKeepsSequential(engine, st, None);
        AllAreAnswered(engine, BootSettles(engine, st, None));
      } else {
        FinishKeepsSequential(engine, st);
        AllAreAnswered(engine, Finish(engine, st));
      }
    }
  }

  lemma SequentialLength<S(!new)>(engine: Engine<S>, st: State<S>)
    requires Sequential(engine, st)
    ensures st.finished <= |st.queue| && |st.outbox| == st.finished
    ensures st.waiting ==> st.finished < |st.queue| && !st.boot.NotStarted?
  {
  }
}
