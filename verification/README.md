# A model of an R runtime's protocols, formats and kernels

This project models the parts of an R implementation in Rust, with its browser runtime and its release
scripts, where correctness depends on more than one function: protocols whose steps interleave, texts and
byte streams that must read back, numerical kernels with exact algebra, recursive layout, and the joins
that decide whether a set of test reports is complete. Each part is written in the form its source has
(classes and loops where the source updates state, functions where it computes), and each loop or update
is tied to a specification about which the main theorems are proved.

| files | part of the system |
|---|---|
| `Wrappers`, `Arithmetic` | optional values, and facts about numbers that several parts need |
| `RuntimeProtocol`, `RuntimeClient`, `RuntimeSafety`, `RuntimeRuns`, `RuntimeEffects`, `RuntimeSessions` | the page's side of the browser runtime: requests, responses, timers, resets and re-entrant status callbacks |
| `RuntimeWorker`, `RuntimeSystem` | the worker's side, and both together against a sequential server |
| `Chebyshev`, `MultiCarry` | Chebyshev series, and the multiply-with-carry generator |
| `Decimal`, `Calendar`, `YearText`, `Strftime`, `StrftimeText`, `StrftimeCompose`, `StrftimeFields` | the strftime port |
| `XdrWire`, `XdrNumbers`, `Xdr`, `XdrStream` | XDR streams (RFC 4506) |
| `MathLayout`, `MathBuilder`, `MathFits`, `MathProperties`, `MathDelimiters`, `MathSubterms`, `MathFaces`, `MathShapes` | mathematical typesetting |
| `Scene`, `SceneScaling`, `Recorder` | display lists, their replay at another size, and the byte-budgeted recorder of interactive plots |
| `SessionIds` | session identities taken by compare-and-exchange |
| `Quota`, `QuotaDays` | the quota script and the drafting request handler |
| `WasmSections` | the WebAssembly section scanner |
| `Striding`, `Conformance`, `Upstream`, `Workspace` | partitions of test inventories and the joins of shard reports |

`dafny verify dfyconfig.toml` checks the whole project.

## What was found

Where the code does not do what its names or comments suggest, the model follows the code, and a theorem
says exactly when the two agree.

- `chebyshev_init` returns an index `i` for which `i + 1` terms are always enough and `i` terms are not, for
  suitable signs of the coefficients (`LeastSufficientCount`).
- `fmt_conv` prints the least 32-bit integer with two minus signs, so that it is the one number that does not
  read back (`ConvReadsBack`).
- In the `%Y` directive the plus flag is put after the width, where flags are no longer read: a year above 9999
  gets its plus sign exactly when no width is given (`PlusInTextIff`): %+Y shows it and %+6Y does not
  (`WidthLosesPlus`).
- The text of a format depends on what follows it if the format ends inside a directive: the texts of two formats
  are joined for every second format exactly when the first does not end so (`ComposesIff`,
  `WidthNeedsItsDirective`).
- A status callback that makes requests itself lets the number of pending requests exceed 16, by one for each
  level of nesting, and this bound is attained (`PendingWithinLimit`, `LimitIsAttained`). A request accepted inside
  the "loading" callback gives one generation two interpreters, and this is the only way it can get two
  (`FreshInterpreterIff`, `OneInterpreterIff`).
- The file backend of XDR writes swapped words and reads unswapped ones (`StdioReversesWords`). A string
  whose count is the greatest 32-bit number is accepted without reading it, and the caller's string stays as it
  was (`GreatestCountKeepsString`); a string of 2^32 bytes or more is cut without an error (`SentWhole`).
- The denominator of a fraction is kept clear of the top edge of the rule instead of its bottom edge, so that a
  high denominator comes closer than the gap; the bound on its height is exact (`FractionClearsRuleIff`,
  `BracketTooClose`). Moving both scripts leaves the gap between them as it was
  (`ScriptGapUnchanged`), so that a subscript higher than its room comes too close to the superscript
  (`ScriptsApartIff`, `ScriptsTooClose`).
- An empty group in a row is not always invisible: at the end of a row it turns an italic correction into width
  (`EmptyGroupIff`).
- The first operation on an empty page, unless it is a clear or asks for at least four operations' worth of bytes,
  is accounted with less than its list holds (`FirstOperationCoveredIff`, `CapacityCoveredIff`).
- A quota script that runs long after its handler read the clock can meet an expired counter. The limit of three
  per minute bears a delay of exactly a minute (`QuotaHolds`, `LongerLagBreaksTheLimit`), the token budget of a day
  exactly a day (`QuotaHolds`, `LongerLagBreaksTheBudget`), and the limit of ten per day exactly a day and two
  minutes (`DayLimitHolds`, `LongerLagBreaksTheDay`).

## Model

| member | source | states |
|---|---|---|
| RuntimeSafety.RunsAreSound | website/src/runtime/r-runtime.ts:71-152 | over every interleaving: each accepted request is pending, settled or held by exactly one suspended call; a request has a live timer exactly when it is pending; no promise settles twice or after its deadline; each request is posted at most once; only the worker it was posted to settles it by a response |
| RuntimeSafety.StepKeepsSound | website/src/runtime/r-runtime.ts:71-152 | every single step (request, callback return, response, timer, worker failure, reset, dispose) keeps that invariant |
| RuntimeSafety.StepKeepsAccounted | website/src/runtime/r-runtime.ts:71-152 | leaving pending coincides with settling, and no promise settles a second time |
| RuntimeRuns.SettledByDeadline | website/src/runtime/r-runtime.ts:71-92 | with no call in progress, every accepted request is settled, by its deadline, or is pending and not yet due |
| RuntimeRuns.RetiredWorkerGetsNoPosts | website/src/runtime/r-runtime.ts:105-152 | nothing is posted any more to a worker that was terminated |
| RuntimeRuns.LateResponseSettlesNothingNew | website/src/runtime/r-runtime.ts:119-140 | a response from an earlier worker never settles a later request |
| RuntimeRuns.RevokedRequestIsNotPosted | website/src/runtime/r-runtime.ts:81-91 | a reset inside the "running" callback leaves that request unposted, with its timer running |
| RuntimeRuns.RevokedRequestIsRejected | website/src/runtime/r-runtime.ts:71-92 | it is never posted afterwards, so it can only be rejected |
| RuntimeRuns.PendingWithinLimit | website/src/runtime/r-runtime.ts:71-76 | with requests nested at most d deep in status callbacks, pending never exceeds 15 + d; so 16 with a callback that makes no requests |
| RuntimeRuns.LimitIsAttained | website/src/runtime/r-runtime.ts:71-76 | for every nesting depth there is a run that reaches that bound |
| RuntimeEffects.FatalResponseEndsSession | website/src/runtime/r-runtime.ts:119-152 | a fatal response to a pending request rejects it with the error and all other pending ones because of the reset; then there is no worker, nothing pending, no live timer, and the next generation |
| RuntimeEffects.OtherResponseKeepsSession | website/src/runtime/r-runtime.ts:119-140 | any other response to a pending request settles it as it says and clears its timer; worker, generation and all other requests stay |
| RuntimeEffects.StaleResponseDoesNothing | website/src/runtime/r-runtime.ts:119-121 | a response to a request that is not pending changes nothing |
| RuntimeEffects.TimeoutEndsSession | website/src/runtime/r-runtime.ts:83-87 | a timer that fires rejects all other pending requests, leaves no worker and no timer, and rejects its own request when the status callback has returned |
| RuntimeEffects.WorkerErrorEndsSession | website/src/runtime/r-runtime.ts:113-114 | so does the failure of a worker, for all pending requests |
| RuntimeEffects.ResetEndsSession | website/src/runtime/r-runtime.ts:94-103 | and so do reset and dispose, each with its own reason |
| RuntimeEffects.EndsIff | website/src/runtime/r-runtime.ts:71-152 | these are the only steps that advance the generation; every other leaves the worker, unless a request that was loading brings a new one |
| RuntimeEffects.EndedSessionGetsNoPosts | website/src/runtime/r-runtime.ts:105-152 | over every run, nothing is posted to a worker after its session has ended in one of these ways |
| RuntimeEffects.RequestIsPosted | website/src/runtime/r-runtime.ts:71-117 | a request whose status callbacks call nothing is posted as it is, with the next identity and its own timer, to the worker, or to a new one if there is none |
| RuntimeEffects.RequestIsRefused | website/src/runtime/r-runtime.ts:71-76 | a request is refused and changes nothing if and only if sixteen are pending |
| RuntimeEffects.ClockOnlyAdvances | website/src/runtime/r-runtime.ts:71-92 | time by itself changes nothing |
| RuntimeSessions.SessionHasOneWorker | website/src/runtime/r-runtime.ts:105-117 | if no two requests are inside the "loading" callback at one time while a generation is the current one, all requests of this generation go to one worker, whatever other generations do |
| RuntimeSessions.NestedLoadingSplitsSession | website/src/runtime/r-runtime.ts:105-117 | in every run that comes to rest, if two requests were inside the "loading" callback at one time in its last generation, two requests of that generation were sent to different workers |
| RuntimeSessions.OneInterpreterIff | website/src/runtime/r-runtime.ts:105-117 | so in every run that comes to rest, from any sound state whose worker, if any, serves its session, the requests of the last generation share one interpreter if and only if at the start no two workers had or would get its requests and no two of them loaded at one time from then on |
| RuntimeSessions.FreshInterpreterIff | website/src/runtime/r-runtime.ts:71-152 | in every run of a new runtime that comes to rest, the requests of the last generation share one interpreter if and only if no two of them were inside the "loading" callback at one time |
| RuntimeSessions.NestedLoadingIsPossible | website/src/runtime/r-runtime.ts:71-117 | and such a request can be made from every state at rest without a worker and with room below the limit |
| RuntimeSessions.StepKeepsWorkers | website/src/runtime/r-runtime.ts:71-152 | a step resets the session, or the number of workers its generation has and will get does not go down; it goes up by one exactly when a request is accepted without a worker |
| RuntimeSessions.WorkerHasOneSession | website/src/runtime/r-runtime.ts:105-152 | over every run two generations never share a worker |
| RuntimeClient.RRuntime.constructor | website/src/runtime/r-runtime.ts:33-43 | a new runtime has nothing pending, no worker and the given or default timeout |
| RuntimeClient.RRuntime.RequestCall | website/src/runtime/r-runtime.ts:71-81 | a call either throws at the limit or goes on to start a worker, up to the callback it suspends in |
| RuntimeClient.RRuntime.CallbackReturned | website/src/runtime/r-runtime.ts:71-152 | when a status callback returns, the call that waited for it goes on where it was suspended |
| RuntimeClient.RRuntime.Executor | website/src/runtime/r-runtime.ts:82-91 | the request gets the next id and a timer, and is posted unless its generation was revoked |
| RuntimeClient.RRuntime.WorkerStarted | website/src/runtime/r-runtime.ts:105-117 | after the "loading" callback the worker is created |
| RuntimeClient.RRuntime.ResetCurrentWorker | website/src/runtime/r-runtime.ts:142-152 | the worker goes, the generation advances, and everything pending is rejected with its timer cleared |
| RuntimeClient.RRuntime.RejectPending | website/src/runtime/r-runtime.ts:146-150 | the loop rejects exactly the pending requests, each once |
| RuntimeClient.RRuntime.ReceiveMessage | website/src/runtime/r-runtime.ts:119-140 | a response settles its request if that is still pending, and a session error resets the worker too |
| RuntimeClient.RRuntime.TimerFired | website/src/runtime/r-runtime.ts:83-87 | a timer that fires removes its request, resets the worker and then rejects the request |
| RuntimeClient.RRuntime.ResetCall | website/src/runtime/r-runtime.ts:94-98 | reset rejects everything pending and starts a new generation |
| RuntimeClient.RRuntime.DisposeCall | website/src/runtime/r-runtime.ts:100-103 | dispose resets and then reports the reset once more |
| RuntimeWorker.Worker.OnMessage | website/src/runtime/r-runtime-worker.ts:24-27 | a request is appended to the chain |
| RuntimeWorker.Worker.StartTask | website/src/runtime/r-runtime-worker.ts:12-18 | the next task answers early, waits for the session to boot, or goes on with it |
| RuntimeWorker.Worker.BootSettled | website/src/runtime/r-runtime-worker.ts:12-18 | the interpreter is made once, and its failure is remembered |
| RuntimeWorker.Worker.FinishTask | website/src/runtime/r-runtime-worker.ts:26-117 | a task evaluates on the session, posts exactly one reply and ends, also after an error |
| RuntimeWorker.FinishKeepsSequential | website/src/runtime/r-runtime-worker.ts:26-117 | finishing a task keeps the replies those of a server that evaluates one command after the other from one fresh session |
| RuntimeWorker.StartKeepsSequential | website/src/runtime/r-runtime-worker.ts:12-18 | so does starting one |
| RuntimeWorker.SessionIsKept | website/src/runtime/r-runtime-worker.ts:8-22 | the session of that server is what the interpreter makes, from a fresh one, of the commands within the limits, each on what the one before left |
| RuntimeWorker.AnswerIs | website/src/runtime/r-runtime-worker.ts:26-117 | its answers: code of more than 65,536 characters is refused at once, then a broken interpreter reports its failure, files of more than 1,048,576 bytes are refused, and every other command is evaluated on that session |
| RuntimeWorker.TaskSteps | website/src/runtime/r-runtime-worker.ts:12-117 | a task that is not refused at once waits for the interpreter, which starts once and is ready or broken for good, and then posts one reply with its own id |
| RuntimeWorker.AllAreAnswered | website/src/runtime/r-runtime-worker.ts:8-117 | no task can block the chain: all messages are answered in order, one reply each, as by the sequential server |
| RuntimeSystem.RunsAreConsistent | website/src/runtime/r-runtime-worker.ts:8-117 | page and workers together keep the client's invariant and the workers' sequential replies over every interleaving |
| RuntimeSystem.GenerationIsSequentialServer | website/src/runtime/r-runtime.ts:71-140 | within a session generation, if no two of its requests are inside the "loading" callback at one time: a promise settled by a response was the k-th request posted in its generation, and its outcome is the answer to its command, refused or evaluated on the session that the first k of that generation within the limits leave, from a fresh one |
| RuntimeSystem.WorkersServeOneGeneration | website/src/runtime/r-runtime.ts:105-152 | in every run of page and workers, the requests one worker gets are of one generation |
| RuntimeSystem.SettledAsSequentialServer | website/src/runtime/r-runtime.ts:71-140 | without any proviso the same holds for the requests posted to one worker |
| RuntimeSystem.RequestIsAnswered | website/src/runtime/r-runtime.ts:71-140 | there is a run of page and worker in which the first request is settled by its worker with the answer to its command on a fresh session |
| RuntimeSystem.RepliesInPostingOrder | website/src/runtime/r-runtime-worker.ts:8-117 | a worker answers in posting order, one reply per request |
| Chebyshev.ChebyshevEval | crates/nmath/src/special/chebyshev.rs:37-58 | the loop returns a0/2 plus the sum of a_k T_k(x) for k from 1 below n, and not-a-number for n outside 1..1000 or x outside -1.1..1.1 |
| Chebyshev.ClenshawIsSeries | crates/nmath/src/special/chebyshev.rs:49-58 | half the difference of two values of Clenshaw's recurrence is that series, with T_k by the three-term recurrence |
| Chebyshev.BoundedByOne | crates/nmath/src/special/chebyshev.rs:37-58 | T_k is within 1 on -1..1, for all k |
| Chebyshev.PellIdentity | crates/nmath/src/special/chebyshev.rs:37-58 | T_k squared plus (1 - x squared) times the square of the polynomial of the second kind is 1 |
| Chebyshev.ChebyshevInit | crates/nmath/src/special/chebyshev.rs:10-33 | the backward loop finds the last index from which the absolute coefficients add up to more than eta |
| Chebyshev.OneMoreTermSuffices | crates/nmath/src/special/chebyshev.rs:10-33 | with the returned i, evaluating i + 1 terms or more differs from evaluating all by at most eta on -1..1 |
| Chebyshev.ReturnedCountFallsShort | crates/nmath/src/special/chebyshev.rs:10-33 | i terms or fewer miss by more than eta at x = 1 for the coefficients taken positive |
| Chebyshev.LeastSufficientCount | crates/nmath/src/special/chebyshev.rs:10-33 | n terms are enough for all coefficients of these magnitudes if and only if n is at least i + 1 |
| MultiCarry.RngState.Step | crates/nmath/src/rng/mod.rs:179-190 | both halves are stepped without wrapping, and the word joins their low parts |
| MultiCarry.ThreadRng.NextWord | crates/nmath/src/rng/mod.rs:179-197 | an installed state advances and the default one does not, and the other way round when none is installed |
| MultiCarry.ThreadRng.SetSeed | crates/nmath/src/rng/mod.rs:60-73 | seeding sets both halves of the current state |
| MultiCarry.ThreadRng.SeedAndDraw | crates/nmath/src/rng/mod.rs:179-197 | after seeding, n draws leave the halves at the n-th points of their orbits |
| MultiCarry.StepDoesNotWrap | crates/nmath/src/rng/mod.rs:179-190 | the step never exceeds 32 bits |
| MultiCarry.StepIsMultiplication | crates/nmath/src/rng/mod.rs:179-190 | with m = a 2^16 - 1 the step is multiplication by a, up to a multiple of m |
| MultiCarry.OrbitClosedForm | crates/nmath/src/rng/mod.rs:179-190 | k steps from a seed strictly between 0 and m give a^k times the seed modulo m |
| MultiCarry.StepPermutes | crates/nmath/src/rng/mod.rs:179-190 | the step permutes 0..m |
| MultiCarry.FixedPoints | crates/nmath/src/rng/mod.rs:179-190 | and fixes only 0 and m |
| MultiCarry.EntersRangeWithinTwoSteps | crates/nmath/src/rng/mod.rs:179-190 | from any 32-bit seed the orbit is in 0..m after two steps and stays there |
| MultiCarry.DegeneratesIffMultiple | crates/nmath/src/rng/mod.rs:179-190 | an orbit reaches a fixed point exactly when its seed is a multiple of m |
| Calendar.LeapSumIsLeap | crates/rmath/src/tzone_strftime.rs:30-39 | the leap test on two summands equals the leap test on their sum |
| Calendar.IsoWeek | crates/rmath/src/tzone_strftime.rs:555-605 | the loop ends within two rounds with the result of the rule it implements |
| Calendar.IsoWeekDate | crates/rmath/src/tzone_strftime.rs:555-605 | for every year and consistent day, that is the year of the week's Thursday and 1 + the Thursday's day of the year over 7, in 1..53 (ISO 8601:2004, section 2.2.10) |
| Calendar.WeekCounts | crates/rmath/src/tzone_strftime.rs:541-618 | %U and %W count the Sundays and the Mondays of the year so far |
| YearText.ConvReadsBack | crates/rmath/src/tzone_strftime.rs:161-241 | for every flag and width the printed number reads back, if and only if it is not the least 32-bit integer |
| YearText.ConvLength | crates/rmath/src/tzone_strftime.rs:161-241 | the text has the asked width, or the length of sign and digits if that is greater |
| YearText.SplitIsExact | crates/rmath/src/tzone_strftime.rs:252-291 | century and year-in-century add up to the sum, the latter within 99 and not of the opposite sign |
| YearText.YearReadsBack | crates/rmath/src/tzone_strftime.rs:252-291 | century and year printed together, with the "-0" case, read back as the year |
| YearText.YearReadsBackI32 | crates/rmath/src/tzone_strftime.rs:252-291 | and so for every pair of 32-bit summands |
| Decimal.ReadShow | crates/rmath/src/tzone_strftime.rs:161-241 | printed digits read back as the number |
| Strftime.FmtAdd | crates/rmath/src/tzone_strftime.rs:134-146 | the part of a C string that fits is written at the position, and nothing else |
| Strftime.PrintNumber | crates/rmath/src/tzone_strftime.rs:161-241 | the digit, sign and padding loops give the converted number |
| Strftime.ReadConversion | crates/rmath/src/tzone_strftime.rs:161-200 | the flag and width loops read the conversion |
| Strftime.FmtYconv | crates/rmath/src/tzone_strftime.rs:252-291 | the year's text as far as it fits |
| Strftime.ScanModifiers | crates/rmath/src/tzone_strftime.rs:335-381 | the modifier loops find padding, width and the position of the directive |
| Strftime.FmtDo | crates/rmath/src/tzone_strftime.rs:319-712 | the processor ends on every format and for every limit writes exactly the prefix of the format's unlimited text that fits |
| Strftime.FmtDirective | crates/rmath/src/tzone_strftime.rs:331-700 | one directive writes what it stands for, as far as it fits, and the format goes on behind it |
| Strftime.RStrftime | crates/rmath/src/tzone_strftime.rs:729-762 | 0 is returned when the text is at least maxsize long; otherwise its length, with the text and a NUL in the buffer and the rest untouched |
| Strftime.YearConversion | crates/rmath/src/tzone_strftime.rs:626-657 | what the directive assembled for %Y means: padding, width, and a plus sign only without a width |
| StrftimeFields.WidthSaturates | crates/rmath/src/tzone_strftime.rs:364-378 | the width of a %Y directive is the number of all its digits, saturated at the greatest 32-bit number |
| StrftimeText.PlusIff | crates/rmath/src/tzone_strftime.rs:626-657 | the text of a %Y directive has a plus sign exactly when the plus flag is given without a width and the year is above 9999 |
| StrftimeText.PlusInTextIff | crates/rmath/src/tzone_strftime.rs:335-657 | and so has the text of every format that is one %Y directive with its modifiers |
| StrftimeText.WidthLosesPlus | crates/rmath/src/tzone_strftime.rs:626-657 | for such a year %+Y shows the sign and %+6Y does not |
| Strftime.CompositeRank | crates/rmath/src/tzone_strftime.rs:438-690 | composite directives expand to formats of lower rank |
| Strftime.ModifierRank | crates/rmath/src/tzone_strftime.rs:474-482 | and so do %E and %O |
| StrftimeText.FormatsCompose | crates/rmath/src/tzone_strftime.rs:319-712 | a format that ends with a complete directive can be followed by any other: the texts are joined |
| StrftimeCompose.ClosedIff | crates/rmath/src/tzone_strftime.rs:331-381 | the end of a format is no unfinished directive if and only if the letter Y behind it is just a Y in the text, at any one time |
| StrftimeCompose.ComposesIff | crates/rmath/src/tzone_strftime.rs:319-712 | so the texts are joined with every second format if and only if the first ends with a complete directive |
| StrftimeCompose.WidthNeedsItsDirective | crates/rmath/src/tzone_strftime.rs:335-381 | %5 in front of Y is a format for which they are not |
| StrftimeText.LocaleModifiersAreTransparent | crates/rmath/src/tzone_strftime.rs:474-482 | %E and %O have no effect but to swallow each other |
| StrftimeText.TextIsClean | crates/rmath/src/tzone_strftime.rs:319-712 | a format without NUL has a text without NUL |
| StrftimeText.TimeText | crates/rmath/src/tzone_strftime.rs:489-537 | %T is hour, minute and second, two digits each, which read back |
| StrftimeText.DateText | crates/rmath/src/tzone_strftime.rs:469-657 | %F is the year, which reads back, then month and day in two digits each, which do too |
| StrftimeFields.HourText | crates/rmath/src/tzone_strftime.rs:443-512 | %I is the hour of the clock face in two digits, %l the same with a blank for the zero, %p AM before noon and PM from noon on |
| StrftimeFields.HourFromText | crates/rmath/src/tzone_strftime.rs:443-496 | %I and %p together read back as the hour |
| StrftimeFields.DayText | crates/rmath/src/tzone_strftime.rs:466-621 | %j, %d and %e read back as day of the year and of the month, padded with zeros or a blank; %w is the weekday, %u the same with 7 for Sunday |
| StrftimeFields.ClockText | crates/rmath/src/tzone_strftime.rs:489-537 | %H and %k read back as the hour, padded with a zero or a blank; %M, %S and %m are two digits |
| StrftimeFields.NumbersReadBack | crates/rmath/src/tzone_strftime.rs:466-621 | each of these numbers reads back whatever the fields hold, within 32 bits, with its padding and its sign |
| StrftimeFields.NameText | crates/rmath/src/tzone_strftime.rs:406-437 | %A and %B are the names of weekday and month, %a, %b and %h their first three letters, and a question mark outside the calendar |
| StrftimeFields.NamesDiffer | crates/rmath/src/tzone_strftime.rs:406-437 | so the short names tell weekday and month |
| StrftimeFields.WeekText | crates/rmath/src/tzone_strftime.rs:541-618 | %U and %W read back as the numbers of Sundays and Mondays in the year so far |
| StrftimeFields.CenturyAndYear | crates/rmath/src/tzone_strftime.rs:463-465 | %C followed by %y reads back as the year |
| StrftimeFields.YearInCentury | crates/rmath/src/tzone_strftime.rs:555-625 | %y and %g are the last two digits of year and ISO year |
| StrftimeFields.OffsetText | crates/rmath/src/tzone_strftime.rs:663-680 | %z is a sign and at least four digits, hours and minutes, which give the offset in whole minutes; nothing if summer time is unknown |
| StrftimeFields.ZoneText | crates/rmath/src/tzone_strftime.rs:658-662 | %Z is the name of the zone, or UTC |
| StrftimeFields.ShortForms | crates/rmath/src/tzone_strftime.rs:438-537 | %T, %X, %R, %D, %x, %F and %v are their parts in order, with their separators |
| StrftimeFields.LongForms | crates/rmath/src/tzone_strftime.rs:438-537 | so are %c and %r |
| StrftimeFields.PlusForm | crates/rmath/src/tzone_strftime.rs:681-683 | and %+ |
| StrftimeFields.OtherText | crates/rmath/src/tzone_strftime.rs:514-700 | line feed, tab, percent sign and seconds since the epoch; a character that is no directive stands for itself |
| StrftimeText.WeekDateText | crates/rmath/src/tzone_strftime.rs:555-605 | %G-W%V is the year of the week's Thursday, which reads back, and the two digits of 1 + that Thursday's day of the year over 7 |
| Xdr.Stream.constructor | crates/rmath/src/xdr.rs:387-413 | a stream starts at position 0 with the whole size left |
| Xdr.Stream.GetLong | crates/rmath/src/xdr.rs:176-187 | four bytes, most significant first on any machine, or nothing changes |
| Xdr.Stream.PutLong | crates/rmath/src/xdr.rs:190-202 | the word's four bytes, most significant first, are written if they fit |
| Xdr.Stream.GetBytes | crates/rmath/src/xdr.rs:205-219 | the next bytes, or nothing changes |
| Xdr.Stream.PutBytes | crates/rmath/src/xdr.rs:222-236 | the bytes are written if they fit, and nothing else is |
| Xdr.Stream.SetPos | crates/rmath/src/xdr.rs:244-254 | any position up to the limit is accepted, and position plus remaining bytes stays the same |
| Xdr.XdrInt | crates/rmath/src/xdr.rs:490-502 | in each mode the signed integer is sent, received or left alone; the bytes sent or received are its two's complement, most significant first |
| Xdr.XdrUInt | crates/rmath/src/xdr.rs:511-523 | likewise for unsigned ones |
| Xdr.XdrOpaque | crates/rmath/src/xdr.rs:534-575 | fixed data with zero padding to four bytes; a failure leaves a prefix of it |
| Xdr.XdrBytes | crates/rmath/src/xdr.rs:589-645 | counted data within maxsize |
| Xdr.XdrString | crates/rmath/src/xdr.rs:657-726 | a counted string, with the 32-bit wrap of its node size |
| Xdr.XdrDouble | crates/rmath/src/xdr.rs:742-808 | the high word goes first on any machine, and the second word is tried even if the first failed |
| XdrWire.ParseIff | crates/rmath/src/xdr.rs:490-808 | apart from the wrapping count, a reader accepts exactly the wire forms of the allowed values of its type, whatever the padding, and returns value and length |
| XdrWire.ParseWire | crates/rmath/src/xdr.rs:490-808 | an item that was written comes back, using up exactly its own bytes |
| XdrWire.WireIsAligned | crates/rmath/src/xdr.rs:534-575 | every item takes a multiple of four bytes |
| XdrStream.WireAllIsAligned | crates/rmath/src/xdr.rs:490-808 | and so does every sequence of items |
| XdrWire.GreatestCountKeepsString | crates/rmath/src/xdr.rs:693-703 | the greatest count is accepted without reading the string, and the caller's string stays as it was |
| XdrWire.SentWhole | crates/rmath/src/xdr.rs:657-690 | an item is sent whole exactly when it is not a string of 2^32 bytes or more |
| XdrNumbers.IntOnWire | crates/rmath/src/xdr.rs:176-202 | the four bytes of a signed integer are its digits to the base 256, most significant first, in two's complement, the first bit the sign |
| XdrNumbers.CountedOnWire | crates/rmath/src/xdr.rs:589-726 | a string or counted data: the number of its bytes in four bytes, the bytes, and zeros up to a multiple of four |
| XdrNumbers.DoubleOnWire | crates/rmath/src/xdr.rs:742-808 | the more significant half of a double comes first |
| XdrNumbers.NumbersRead | crates/rmath/src/xdr.rs:490-523 | the readers of integers return the number of the first four bytes, signed or not, if there are four |
| XdrNumbers.CountedRead | crates/rmath/src/xdr.rs:589-726 | the readers of counted data and strings return so many bytes as the first four say, within the bound, and go on at the next multiple of four |
| XdrNumbers.DoublesRead | crates/rmath/src/xdr.rs:742-808 | the reader of doubles returns the numbers of two times four bytes |
| Xdr.WordSent | crates/rmath/src/xdr.rs:511-523 | what the routine for unsigned integers leaves in the buffer is the number |
| Xdr.DataSent | crates/rmath/src/xdr.rs:534-575 | that for opaque data leaves the data and zeros |
| Xdr.CountedSent | crates/rmath/src/xdr.rs:589-726 | those for counted data and strings leave the count, the data and zeros |
| Xdr.DoubleSent | crates/rmath/src/xdr.rs:742-808 | that for doubles leaves the halves in the order of the wire on either kind of machine |
| XdrWire.StdioReversesWords | crates/rmath/src/xdr.rs:261-282 | through the file backend a word comes back with its bytes reversed on a little-endian machine, unchanged exactly if it reads the same both ways |
| XdrStream.XdrAll | crates/rmath/src/xdr.rs:490-808 | a sequence of items is encoded exactly when all counts are allowed and the total fits, and decoded as the sequence of its types reads |
| XdrStream.ParseWireAll | crates/rmath/src/xdr.rs:490-808 | any sequence of allowed items reads back with the same types, up to the same position, whatever follows |
| XdrStream.EncodeThenDecode | crates/rmath/src/xdr.rs:387-808 | encoding into a memory stream and decoding from it on machines of any byte order returns the items |
| MathShapes.TextMeasures | crates/r-graphics-engine/src/math.rs:216-285 | a text has the measures of its font, and in a slanted face an italic correction of fifteen hundredths of its ascent |
| MathShapes.RuleThickness | crates/r-graphics-engine/src/math.rs:619-668 | the rule of a fraction is fifteen thousandths of an inch thick |
| MathShapes.DelimiterPieces | crates/r-graphics-engine/src/math.rs:370-420 | which pieces each growing delimiter is made of, ends first, then the middle of a brace, then extensions; any other symbol draws nothing |
| MathShapes.EndsStand | crates/r-graphics-engine/src/math.rs:391-406 | the ink of the ends stands at the reach above and below the axis, that of the middle around it |
| MathShapes.ExtensionsAreFewest | crates/r-graphics-engine/src/math.rs:407-419 | the number of extensions is the least that bridges the gap |
| MathShapes.ReachIsLeast | crates/r-graphics-engine/src/math.rs:384-390 | a delimiter reaches no further than its body and the height of its pieces ask for |
| MathFits.LayoutFits | crates/r-graphics-engine/src/math.rs:216-795 | for every expression every mark, with the ink of texts and every point of curves, lies in the box of its layout; width and italic correction are not negative; no text is smaller than half the least scaled size nor larger than its style level allows |
| MathProperties.EveryLayoutIsFramed | crates/r-graphics-engine/src/math.rs:216-795 | so for every expression without negative spaces and scales |
| MathProperties.SizesOfUnscaled | crates/r-graphics-engine/src/math.rs:163-203 | without explicit scales, scripts and fractions of any depth keep at least half the font size, and nothing exceeds it by more than a quarter |
| MathProperties.LevelsRise | crates/r-graphics-engine/src/math.rs:163-203 | down any path through the parts of an expression the style level never decreases, stays in 0..3 and is at least 2 from the first script or limit on; compactness stays |
| MathProperties.LayoutOfParts | crates/r-graphics-engine/src/math.rs:216-795 | these are the contexts of the layout: an expression sees of its parts only their layouts in them, so parts laid out alike can be exchanged |
| MathSubterms.PhantomHides | crates/r-graphics-engine/src/math.rs:359-363 | a subterm of any expression that is replaced by its phantom: its marks, which stood there in one piece, are gone, and everything else stays where it was |
| MathSubterms.PhantomDrawsNothing | crates/r-graphics-engine/src/math.rs:359-363 | a phantom has no marks and the extents of what it hides |
| MathSubterms.TextIsDrawn | crates/r-graphics-engine/src/math.rs:216-795 | every text outside of phantoms is drawn, in the face of the innermost style around it and in the size of its context |
| MathFaces.StyleChangesFaces | crates/r-graphics-engine/src/math.rs:294-301 | with a font whose faces measure alike, a style of the same slant changes nothing but the faces of texts |
| MathFaces.InnerStyleCounts | crates/r-graphics-engine/src/math.rs:294-301 | a style of the face in force changes nothing, and an inner style takes precedence |
| MathShapes.ContextSteps | crates/r-graphics-engine/src/math.rs:163-203 | sizes and levels of the parts of an expression in numbers |
| MathShapes.RowPlacement | crates/r-graphics-engine/src/math.rs:607-618 | the items of a row stand behind the widths and italic corrections of those before, and the row reaches as far as they do |
| MathShapes.SpaceIsWidth | crates/r-graphics-engine/src/math.rs:351-358 | a space has no marks and its exact width by level |
| MathShapes.FractionOffsetsAre | crates/r-graphics-engine/src/math.rs:632-651 | how far numerator and denominator go: a distance of their own, or as far as the rule demands |
| MathShapes.FractionExtents | crates/r-graphics-engine/src/math.rs:652-668 | a fraction reaches exactly as far as its parts |
| MathShapes.ScriptsGoNoFurther | crates/r-graphics-engine/src/math.rs:681-718 | each shift of a script is the least that meets its bounds |
| MathShapes.ScriptExtents | crates/r-graphics-engine/src/math.rs:728-741 | a scripted expression reaches exactly as far as base and scripts |
| MathShapes.ScriptsMoveIff | crates/r-graphics-engine/src/math.rs:719-727 | scripts are moved exactly when they are too close and the ink of the superscript is below eight tenths of an x-height |
| MathShapes.OperatorExtents | crates/r-graphics-engine/src/math.rs:542-606 | a display operator reaches exactly as far as symbol, limits, their spaces and the body |
| MathShapes.RadicalPlacement | crates/r-graphics-engine/src/math.rs:742-794 | a root: four joined lines down to the depth of the body, up, and along the bar, which spans the body with its italic correction |
| MathShapes.BodyIsUnderRoot | crates/r-graphics-engine/src/math.rs:742-794 | all marks of the body are right of the sign and below the bar |
| MathShapes.UnderlinePlacement | crates/r-graphics-engine/src/math.rs:340-350 | an underline is one line across the width, a tenth of the size below all marks of the body |
| MathShapes.MacronPlacement | crates/r-graphics-engine/src/math.rs:321-338 | a macron is one line across the width, a tenth of the size above them |
| MathShapes.AccentPlacement | crates/r-graphics-engine/src/math.rs:302-320 | an accent is centered over its body, moved by the italic correction, a tenth of a capital above all its marks |
| MathShapes.WideAccentPlacement | crates/r-graphics-engine/src/math.rs:434-475 | a hat or tilde goes from edge to edge of the body, above all its marks |
| MathShapes.OperatorSymbol | crates/r-graphics-engine/src/math.rs:476-541 | the symbol of an operator: in display style a quarter larger and centered on the axis, or the two halves of an integral |
| MathProperties.FractionPlacement | crates/r-graphics-engine/src/math.rs:619-668 | numerator and denominator are laid out in their own contexts, stand over each other with their middles in line, and clear the rule, which spans the width at the axis |
| MathProperties.FractionClearance | crates/r-graphics-engine/src/math.rs:650-651 | the numerator clears the rule by the full gap, the denominator by the gap less the thickness of the rule |
| MathProperties.DenominatorClearsIff | crates/r-graphics-engine/src/math.rs:651 | the denominator clears the bottom of the rule by the full gap exactly if it did so before it was shifted |
| MathProperties.FractionClearsRuleIff | crates/r-graphics-engine/src/math.rs:619-651 | so a fraction as laid out keeps the full gap below its rule if and only if the denominator is no higher than a bound of digit, capital and rule |
| MathProperties.BracketTooClose | crates/r-graphics-engine/src/math.rs:619-651 | a fraction and a font for which it does not |
| MathProperties.ScriptsClear | crates/r-graphics-engine/src/math.rs:681-718 | how far scripts keep from the baseline and from a base that is not a single symbol |
| MathProperties.ScriptsPlacement | crates/r-graphics-engine/src/math.rs:669-741 | a scripted expression as laid out: the base stays, the scripts are laid out in their own contexts, begin where the base with its italic correction ends or further right, lie within the width, and keep their distances from the baseline and from each other |
| MathProperties.ScriptGapUnchanged | crates/r-graphics-engine/src/math.rs:719-727 | moving both scripts keeps the gap between them, so they are the least distance apart exactly if they were before |
| MathProperties.ScriptsApartIff | crates/r-graphics-engine/src/math.rs:669-741 | so the scripts of an expression as laid out keep the least distance from each other if and only if the subscript is no higher than a bound of font, base and superscript |
| MathProperties.ScriptsTooClose | crates/r-graphics-engine/src/math.rs:669-741 | a font and an expression for which they do not |
| MathProperties.LimitsClearSymbol | crates/r-graphics-engine/src/math.rs:476-606 | a display operator as laid out: limits above and below are in line with the middle of the symbol and clear its ink by the space, limits of an integral stand at its foot and head, and the body begins where all of them have ended |
| MathProperties.BodyStandsClear | crates/r-graphics-engine/src/math.rs:587-606 | the body of a display operator starts where the symbol and its limits end |
| MathDelimiters.DelimiterIsSolid | crates/r-graphics-engine/src/math.rs:370-420 | a growing delimiter has ink at every height of its reach: the extensions leave no gap |
| MathDelimiters.DelimiterContainsBody | crates/r-graphics-engine/src/math.rs:367-397 | its reach contains the body with a fifth of an x-height to spare |
| MathDelimiters.GroupIsEnclosed | crates/r-graphics-engine/src/math.rs:364-433 | in a group the marks of the left delimiter, at the left edge, and those of the right one, where the body ends, each have ink at every height of the body |
| MathDelimiters.GroupExtents | crates/r-graphics-engine/src/math.rs:364-433 | a group is as wide as delimiters and body, and reaches as far as they do |
| MathBuilder.Builder.Append | crates/r-graphics-engine/src/math.rs:64-101 | the loop adds the shifted marks and extends ascent and descent |
| MathBuilder.LayoutRow | crates/r-graphics-engine/src/math.rs:607-618 | the loop builds the layout of a row |
| MathBuilder.LayoutVariable | crates/r-graphics-engine/src/math.rs:236-265 | the loop builds the layout of a variable |
| MathBuilder.LayoutDelimiter | crates/r-graphics-engine/src/math.rs:370-420 | the calls and the loop build a growing delimiter |
| MathBuilder.RowsFlatten | crates/r-graphics-engine/src/math.rs:607-618 | grouping some items of a row changes nothing, if there are any |
| MathBuilder.EmptyGroup | crates/r-graphics-engine/src/math.rs:607-618 | an empty group turns the italic correction before it into width, and makes no difference to where the next item goes |
| MathBuilder.EmptyGroupIff | crates/r-graphics-engine/src/math.rs:607-618 | so it changes nothing if and only if an item follows or there is no italic correction before it |
| MathBuilder.GroupingIff | crates/r-graphics-engine/src/math.rs:607-618 | grouping any items of a row changes nothing if and only if there are some, or an item follows, or there is no italic correction before them |
| MathBuilder.VariableIsRow | crates/r-graphics-engine/src/math.rs:236-265 | a variable is a row of its characters, digits upright, except that scripts treat it as a single symbol |
| Scene.DisplayList.Draw | crates/r-graphics-engine/src/scene.rs:190-223 | a clear starts a new page, any other call is appended |
| Scene.DisplayList.ReplayScaledTo | crates/r-graphics-engine/src/scene.rs:107-122 | replay records the scaled operations in order |
| Scene.KeptIsSinceClear | crates/r-graphics-engine/src/scene.rs:94-104 | a recording keeps everything, or the part from the last clear on |
| Scene.SinceClearIsPage | crates/r-graphics-engine/src/scene.rs:94-104 | that part is a suffix with no clear behind its first operation |
| Scene.ScaleTwice | crates/r-graphics-engine/src/scene.rs:312-430 | scaling an operation twice is scaling by the products, for all real scales, with the root scalar and the unit-scale shortcut |
| Scene.ShortcutIsInvisible | crates/r-graphics-engine/src/scene.rs:331-362 | the unit-scale shortcut makes no difference |
| Scene.ReplayThrough | crates/r-graphics-engine/src/scene.rs:107-122 | replaying into a recording of another size and from there to a third equals replaying directly |
| Scene.AxisThrough | crates/r-graphics-engine/src/scene.rs:304-310 | the factors of an axis multiply exactly when no size of zero gets in between |
| Scene.ReplayUnscaled | crates/r-graphics-engine/src/scene.rs:107-122 | at its own size a list is copied unchanged from the last clear on |
| Scene.ReplayIntoNew | crates/r-graphics-engine/src/scene.rs:107-122 | replay into a fresh recording |
| SceneScaling.OperationStretches | crates/r-graphics-engine/src/scene.rs:316-430 | every point of an operation is multiplied by the factors of its axes, every length by one factor, and nothing else changes; an image lands where its corners do |
| SceneScaling.LengthFactor | crates/r-graphics-engine/src/scene.rs:312-314 | the square of that factor is the magnitude of the product of the others |
| SceneScaling.ReplayStretches | crates/r-graphics-engine/src/scene.rs:107-122 | so replay puts the corner of the old size on the corner of the new one |
| Recorder.RunKeeps | crates/r-embed/src/session.rs:615-700 | over any run of evaluations the kept page is exactly the drawing calls since the last clear since the last refusal, across all evaluations, covered by the reservation and within 16 MiB |
| Recorder.NothingMissing | crates/r-embed/src/session.rs:56-192 | without a refusal nothing is missing, and something was drawn exactly when a path, text or image was |
| Recorder.AlwaysAccounted | crates/r-embed/src/session.rs:56-132 | at every moment the accounted bytes are at least those of the operations and at most the budget |
| Recorder.CapacityCovered | crates/r-embed/src/session.rs:9-11 | from the second operation, or after a clear, they also cover the capacity of the doubling list |
| Recorder.FirstOperationCoveredIff | crates/r-embed/src/session.rs:9-11 | a first call that is no clear is accounted with what its list holds exactly if it asks for four operations or more |
| Recorder.CapacityCoveredIff | crates/r-embed/src/session.rs:9-11 | the accounted bytes cover the capacity of the list if and only if the evaluation was not one call on an empty page that is no clear and asks for less than four operations |
| Recorder.FirstClipUndercounted | crates/r-embed/src/session.rs:136-140 | such a call is a clip |
| Recorder.RecountAccounted | crates/r-embed/src/session.rs:85-97 | a page kept from an earlier evaluation is within the budget when it is counted again |
| Recorder.PictureIsWholePage | crates/r-embed/src/session.rs:668-700 | a picture is returned exactly when this evaluation drew something, and shows the whole kept page |
| Recorder.UnfinishedKeepsPage | crates/r-embed/src/session.rs:668-700 | when the picture cannot be finished, and only after something was drawn, the error leaves the page with all that was drawn |
| Recorder.RefusalRecovers | crates/r-embed/src/session.rs:659-667 | after a refusal the next evaluation starts on an empty page of its own size |
| Recorder.Tracker.Draw | crates/r-embed/src/session.rs:127-192 | a call is accounted and passed on, or refused |
| Recorder.Tracker.Reserve | crates/r-embed/src/session.rs:70-82 | bytes are reserved exactly when the total is within the budget and the session grants them |
| Recorder.RefusedIff | crates/r-embed/src/session.rs:70-192 | a call that does not clear is refused exactly if memory is refused or if two operations and its data are more than 16 MiB leave, and then changes nothing |
| Recorder.ClearedIff | crates/r-embed/src/session.rs:127-135 | a clear is refused exactly if memory for four operations is, and else is all that is left of the page |
| Recorder.RefusalStays | crates/r-embed/src/session.rs:56-192 | once something was refused, the evaluation stays refused |
| Recorder.LargeDataIsRefused | crates/r-embed/src/session.rs:85-192 | so a text, an image or a path whose data alone exceed 16 MiB is never recorded |
| Recorder.PageFitsBudget | crates/r-embed/src/session.rs:615-700 | over any run the data of the kept page, and two operations for each of its own, stay within 16 MiB |
| Recorder.OutcomeIff | crates/r-embed/src/session.rs:615-700 | the exact cause of each outcome, and that early exits leave everything as it was |
| Recorder.Session.EvalInteractive | crates/r-embed/src/session.rs:615-700 | what an evaluation leaves and returns, with its early exits |
| Recorder.IdleEvaluation | crates/r-embed/src/session.rs:615-700 | an evaluation that draws nothing keeps the page, or begins an empty one of its own size, and reserves nothing |
| SessionIds.IdentitiesAreConsecutive | crates/r-embed/src/session.rs:280-339 | for any number of threads, with stale reads and needless failures, the identities given are 1, 2, 3 and so on, each once, and the counter never wraps |
| SessionIds.ExhaustionIsFinal | crates/r-embed/src/session.rs:318-332 | a refusal means that all identities are taken, and the counter stays as it is from then on |
| SessionIds.AloneTwoTriesSuffice | crates/r-embed/src/session.rs:317-332 | a thread left alone is done after two tries |
| SessionIds.TakenIsReturned | crates/r-embed/src/session.rs:322-332 | the identity an exchange took is the one its thread returns |
| SessionIds.Counter.TryOnce | crates/r-embed/src/session.rs:318-332 | one round of the loop |
| Quota.Redis.Reserve | website/server/draft-code.ts:105-116 | the script charges all three counters or none |
| Quota.QuotaHolds | website/server/draft-code.ts:105-116 | over any interleaving, at most 3 accepted reservations per account and minute if scripts run within a minute of the handler's clock; 10 per day, and the day's tokens within the budget, if within a day |
| Quota.LongerLagBreaksTheLimit | website/server/draft-code.ts:105-116 | with any longer delay a fourth reservation of a minute can be accepted |
| QuotaDays.DayLimitHolds | website/server/draft-code.ts:105-116 | at most 10 reservations of an account are accepted in a day even if scripts run up to a day and two minutes late |
| QuotaDays.LongerLagBreaksTheDay | website/server/draft-code.ts:105-116 | with any longer delay an eleventh can be |
| QuotaDays.LongerLagBreaksTheBudget | website/server/draft-code.ts:105-116 | with any delay longer than a day the accepted tokens of a day can exceed the budget |
| Quota.DecidesByLog | website/server/draft-code.ts:105-116 | the script accepts exactly when the accepted reservations of its buckets leave room |
| Quota.RefusalChangesNothing | website/server/draft-code.ts:105-116 | a refused script changes no counter, and only an accepted one is logged |
| Quota.StillCounting | website/server/draft-code.ts:111-113 | expiry never drops a counter while a request of its bucket may run |
| Quota.PaidCallsAreReserved | website/server/draft-code.ts:76-101 | whatever is lost or late, paid calls never outnumber accepted reservations, and each has its own |
| Quota.AnswerDecides | website/server/draft-code.ts:76-88 | a handler that gets the answer goes on exactly if the reservation was accepted, one that gave up does not |
| Quota.DecidedOnce | website/server/draft-code.ts:76-101 | over any run this is decided once |
| Quota.ReadBody | website/server/draft-code.ts:47-64 | the body is refused exactly when what arrives exceeds 8192 bytes |
| Quota.JoinedInOrder | website/server/draft-code.ts:47-66 | what is read are the bytes of all parts in order |
| Quota.Handle | website/server/draft-code.ts:21-103 | a paid call is made exactly for a request that meets all guards and whose reservation is accepted, and once; each status has its exact cause |
| WasmSections.ScanExecutionSections | scripts/optimize_wasm_runtime.py:54-81 | the loops compute the header and the standard sections, or the error |
| WasmSections.AcceptedIff | scripts/optimize_wasm_runtime.py:54-81 | accepted are exactly the header followed by complete sections with LEB128 lengths of at most five bytes, in one way only |
| WasmSections.LebIsBase128 | scripts/optimize_wasm_runtime.py:61-75 | the length of a section is the number with the low seven bits of its bytes as digits to the base 128, the least significant first |
| WasmSections.SectionsOfResult | scripts/optimize_wasm_runtime.py:54-81 | the result is a module of the non-custom sections in their original encoding and order |
| WasmSections.Idempotent | scripts/optimize_wasm_runtime.py:54-81 | applying it to its result changes nothing |
| WasmSections.UnchangedIff | scripts/optimize_wasm_runtime.py:54-81 | a module is left as it is exactly when it has no custom section |
| WasmSections.EqualIff | scripts/optimize_wasm_runtime.py:54-81 | two modules give equal results exactly when their non-custom section encodings agree |
| WasmSections.CustomSectionsDoNotMatter | scripts/optimize_wasm_runtime.py:54-81 | a custom section at any boundary makes no difference |
| Striding.StridesMakeWhole | scripts/conformance_shards.py:30-36 | the strides of a list together are a permutation of it |
| Striding.StridesDisjoint | scripts/conformance_shards.py:30-36 | no case belongs to two of them |
| Striding.StrideAt | scripts/conformance_shards.py:36 | the k-th element of a stride is the one at index plus k times count |
| Conformance.Partition | scripts/conformance_shards.py:30-36 | a shard exists exactly for an index below a count that the inventory, without repetition, can fill |
| Conformance.MergeReports | scripts/conformance_shards.py:107-172 | the loop over the reports computes the summary |
| Conformance.GoodIff | scripts/conformance_shards.py:114-154 | a good report: of an expected shard under the expected contract, one result for each of its cases and no other, none unknown or timed out, counts that are right, and the claim to be complete |
| Conformance.CompleteIff | scripts/conformance_shards.py:107-172 | completeness is claimed exactly when the commit matches and there is one valid, complete, timeout-free report per shard and nothing else; then the rows are a permutation of the inventory |
| Conformance.ErrorFree | scripts/conformance_shards.py:114-154 | the merge is free of errors exactly when every report is good and no shard comes twice |
| Conformance.ErrorsAtMost | scripts/conformance_shards.py:107-158 | each report adds at most one error |
| Conformance.OrderDoesNotMatter | scripts/conformance_shards.py:114-172 | the order of the reports makes no difference to the claims, and to the rows of a complete merge none but their order |
| Conformance.StrictPassIff | scripts/conformance_shards.py:169 | a strict pass means that every case passed |
| Upstream.AgreementIff | scripts/upstream_execution.py:334-366 | agreement is reported exactly when both engines and both normalizations ran to a successful end and agreed |
| Upstream.ExpectedFailureIff | scripts/upstream_execution.py:334-366 | an expected failure needs its disposition and a real end of every process |
| Upstream.MergeReports | scripts/upstream_execution.py:699-739 | the loop over the reports computes the summary |
| Upstream.PartsMakeWhole | scripts/upstream_execution.py:245-251 | the curated cases and the strides of the whole drivers make up the inventory |
| Upstream.GoodIff | scripts/upstream_execution.py:615-739 | a good report: of the curated shard or an expected shard of whole drivers, one row for each case of its part with the verdict on that case, no process cut short, no normalization in error, finished and not failed |
| Upstream.SelectedIs | scripts/upstream_execution.py:245-251 | the curated cases are those that are no whole drivers, each as often as in the inventory |
| Upstream.StrictPassIff | scripts/upstream_execution.py:699-739 | a complete merge is a strict pass exactly if every row passed, failed as expected or was skipped |
| Upstream.CompleteIff | scripts/upstream_execution.py:699-739 | completeness is claimed exactly when the commit matches, there is one good report for the curated cases and one per shard of whole drivers, nothing else, and all normalized alike |
| Upstream.StrictPassMeans | scripts/upstream_execution.py:369-384 | after a strict pass every case has one row, no row is a failure or an unexpected pass, and each status is the verdict on processes that ran to their end |
| Workspace.MergeReports | scripts/workspace_execution.py:271-300 | the loop over the reports computes the summary |
| Workspace.EveryTargetHasShard | scripts/workspace_execution.py:63-69 | every target belongs to a shard |
| Workspace.NoTargetInTwoShards | scripts/workspace_execution.py:63-69 | no test belongs to two |
| Workspace.CompleteIff | scripts/workspace_execution.py:271-300 | completeness is claimed exactly when the commit matches and there is one valid, finished report per test shard and one for the documentation shard, nothing else, built with the same features; a strict pass exactly when all passed too |
| Workspace.ErrorsAtMost | scripts/workspace_execution.py:271-300 | each report adds at most one error |
| Workspace.StrictPassMeans | scripts/workspace_execution.py:214-268 | after a strict pass every test target, the documentation tests and the UniFFI check ran to their end with exit code zero |

## Left out

- Floating point: Chebyshev series, typesetting and scene scaling are over the real numbers, without rounding, and the square root is any function that squares back. The product that turns a generator word into a number is not modelled.
- Surroundings of the browser runtime: status callbacks return and do not throw, calls take no time, and timers fire on time. `run` and `importFile` check their arguments before they make a request; those checks are not modelled.
- R evaluation, and what is measured about it (its duration) or told from the text of its errors (whether one is fatal): an evaluation is any function of the session in the worker, and any sequence of drawing calls with a result in the recorder.
- 32-bit overflow in the calendar fields that strftime is given (such as a day of the year plus one), `R_mktime`, time-zone names and the environment variable for padded years, which are inputs.
- Raw addresses, null arguments, allocation and the file handle of the XDR port: buffers are byte arrays, an in-out parameter is an argument and a result, and releasing memory does nothing. The node size of a string wraps as in a release build.
- The sign and the wrap of stream sizes above the greatest C int: streams are created with smaller sizes, as their callers do.
- Font metrics: widths and the ascents that are used are not negative, ink is not upside down, and the inner pieces of a delimiter are no wider than its ends. A delimiter whose extension glyph has no height gets no extensions in the model.
- Drawing a finished layout at an angle (`MathLayout::draw`).
- Validation and JSON coding of scenes; rendering, PNG and GPU code.
- Memory sizes beyond a machine word: the recorder's saturating additions are additions, which only totals far above the budget can tell apart.
- Memory ordering of the session counter is modelled as reads that may return any earlier value; the exchange itself is atomic.
- Redis is modelled with one clock that agrees with the handlers' clocks. Verification of tokens and the extraction of code from answers are given functions.
- Digests, sealed files, commands, git and Cargo calls of the scripts are given facts about a report. The sorting of merged rows and the texts of errors are not modelled.
- Payload bits of a LEB128 length are added rather than or-ed; they never overlap.
- Upstream.Verdict: that normalizations only follow two successful engines is part of the sealed facts, as in the code that validates a report before it asks for the verdict.
- Other R functions, packages, user interface and build tooling.
