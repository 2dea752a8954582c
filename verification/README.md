# Verified models of the trickier parts of Yep Anywhere

Dafny models of the algorithms and protocols in this repository that are easiest to get subtly wrong,
with proofs of what they promise. Check everything with `dafny verify dfyconfig.toml`.

| files | what they model |
|---|---|
| `Sums`, `HeatField`, `ReverseMode`, `HeatDifference`, `Recognizer`, `Fit` | the two-sided heat field over a text and its hand-written reverse-mode gradient, over the reals |
| `Slopes`, `LossSlope`, `LossDerivative` | derivatives by their definition, and that the gradient is the derivative of the loss |
| `Shuffle`, `Training`, `AdamStep`, `Runtime` | the seeded shuffle, the epoch and batch loops, the proximal step, and the extracted runtime model |
| `DevWrapper`, `DevWrapperRuns`, `DevWrapperClient`, `LineForward` | the dev wrapper as a state machine over its regions between awaits, what holds over its runs, and its line forwarding |
| `ArtifactStream`, `ArtifactRelease`, `BrokerAdmission` | the pull protocol between the artifact service worker and the broker, and the broker's admission of requests |
| `PercentCoding`, `EntryPath` | the way of an entry path from the bootstrap through the browser's address to the worker |
| `Wrappers`, `Trimming` | optional values and trimming, shared |
| `StableSort`, `ImportSplice` | wrapping dynamic imports by splicing text |
| `CssRules`, `CssOwnRule`, `Reachability`, `Composes`, `Preload` | removing unused style rules, tracing composed modules, and listing chunks to preload |
| `Spans`, `Labels`, `ScriptTables`, `Informalize` | cutting text into runs with math spans, building labelled rows, and the random respelling of formulas |
| `IncomingShares` | the bounded store of incoming shares |

Code that changes state is modelled by classes and methods whose contracts tie the new state to a
specification function; the lemmas are about those functions. Time, processes, signals, messages, timers
and random draws are events or choices that may happen in any order and with any value.

## What the proofs found

- A server that exits while its client is being built for a reload is forgotten if the build then fails
  (`scripts/dev.js:760-771`): the wrapper stays `running` without a server, refuses reloads, and only a
  shutdown gets it out. This happens on some run exactly when clients are built before a reload
  (`DevWrapperModel.CrashIsAnsweredIff`), and on a given run exactly when a build failed so and no shutdown was asked
  for since (`DevWrapperRuns.StuckIff`).
- The end of startup assigns `running` even if shutdown has begun (`scripts/dev.js:1058`); from there a reload
  can start a server after shutdown began (`DevWrapperModel.NoSpawnAfterShutdownIff`).
- A backend that registers after a stop recorded its targets is not waited for: a replacement can start while it is
  alive (`DevWrapperRuns.ReplacedBackendCanBeAlive`). The targets waited for are all the predecessor has at the start
  exactly when no later registration was accepted or the last one carried the recorded backend
  (`DevWrapperRuns.AllTargetsAwaitedIff`).
- Closing a viewer can end a response body normally before the file ends, exactly when the reader still has bytes
  left (`ArtifactStream.ClosedBodyIsWholeIff`, with the run `ArtifactStream.ClosedViewerTruncates`). This needs a
  transport that ignores the abort signal once its body has started, as the encrypted relay does
  (`packages/client/src/lib/connection/RelayProtocol.ts:908-913`): a plain `fetch` body fails on the abort before
  its reader is cancelled, and then never closes normally (`ArtifactStream.AbortedNeverCloses`).
- A path counts against the broker's 64-file limit even when its request is refused, so a viewer granted more than
  64 files can lock itself out for good (`BrokerAdmission.CanLatchIff`). The limit of 8 is tested for pending requests
  and for open readers separately: up to 15 readers can be open (`BrokerAdmission.FifteenReadersCanBeOpen`), and both
  together stay within 8 exactly when each request was admitted while they were fewer (`BrokerAdmission.EightHoldIff`).
- An entry with a dot segment arrives as another path, as `x/../y` does (`EntryPath.StepBackArrivesElsewhere`), or is
  refused, as `..` is (`EntryPath.StepOutIsRefused`), since the address is parsed in between; exactly the entries the
  worker would accept arrive unchanged (`EntryPath.EntryRoundTripIff`).
- The overlap test of the style rule remover misses exactly a range that strictly encloses one already kept
  (`CssRules.EndpointTestIff`; a sheet in `CssRules.OrderWitness`). The caller passes classes in line order
  (`scripts/find-unused-css.ts:1958`), and there such a range never comes up (`CssRules.KeptRangesAreStacked`).
- The remover works by whole lines, so it deletes exactly a class's own rule only where that rule's braces stand alone:
  the class's line opens a brace or stands in none, no brace or semicolon comes before the opening brace on the lines
  deleted, no code follows the closing brace on its line, and the code above ends in a brace or semicolon. By
  character positions these conditions are exact (`CssOwnRule.DeletesOwnRuleIff`), and on the line where a rule starts,
  which is the line the caller passes, the last one follows from the others (`CssOwnRule.RuleStartIff`).
  Otherwise less or more goes: the rest of a block stays in `x{`, `}a{`, `p`, `}` (`CssOwnRule.CloseBeforeOpenWitness`),
  both rules go in `a{}b{}` (`CssOwnRule.SharedLineWitness`), a closing brace of another rule goes in `x{`, `*/}`, `a{`,
  `}` (`CssOwnRule.CloseInCommentWitness`). Where the class's line opens no brace and stands in one, the earlier or
  enclosing rule is deleted instead (`CssRules.EarlierRuleIsTaken`); a rule on comment-like lines directly above, such as
  a one-line `*` rule, is deleted with it (`CssRules.SwallowsIff`); and from a later line of a selector the lines above
  are left behind (`CssRules.LeavesSelectorIff`, `CssOwnRule.SelectorLeftWitness`).
- A script written bare runs into a letter or digit that follows it: a raised 2 before a 3, spelled with a caret, gives
  `^23`. It is read back as itself exactly when neither follows (`Informalize.BareScriptReadsBackIff`).
- The weights of the gradient leave out the guard 1e-12 that the loss adds inside its logarithm: each is the exact slope
  times the guarded likelihood over the likelihood (`LossDerivative.WeightsAreSlopes`).

## Model

| member | source | states |
|---|---|---|
| `HeatField.ForwardAdjointIdentity` | scripts/unicode-math/fit.ts:181-198 | the adjoints of the forward field transport any weighting of a solution of the recurrence onto its sources: Σ g·x = Σ a·e, for every length |
| `HeatField.BackwardAdjointIdentity` | scripts/unicode-math/fit.ts:183-204 | the same for the backward field |
| `ReverseMode.ReverseEqualsForward` | scripts/unicode-math/fit.ts:178-213 | reverse mode equals forward mode: for any simultaneous direction in heats and decays, the exact first-order change of Σ g·(F+B−h) is Σ dh·th + Σ dd·td with the code's `dh` and `dd` |
| `HeatDifference.DecayDifferenceIsExact` | scripts/unicode-math/fit.ts:178-213 | replacing one `d[j]` by `d[j]+ε` changes Σ g·(F+B−h) by exactly ε times the code's `dd` at `j`, for every length, position and ε |
| `HeatDifference.HeatDifferenceIsExact` | scripts/unicode-math/fit.ts:178-212 | moving the heats along any direction by ε changes Σ g·(F+B−h) by exactly ε times the code's `dh` along it |
| `Fit.OneEntryMovesItsReaders` | scripts/unicode-math/fit.ts:138-176 | raising one entry of the flat parameter vector moves exactly the heats and logits that read it, by exactly ε: the layout blocks do not overlap |
| `Fit.KeysNameClasses` | scripts/unicode-math/fit.ts:219-220 | a key of the left table is the class before times K plus the own class, one of the right table the own class times K plus the next: quotient and remainder give them back |
| `Fit.ForwardBackward` | scripts/unicode-math/fit.ts:178-183 | the two index loops compute the two-sided recurrence |
| `Fit.AdjointPasses` | scripts/unicode-math/fit.ts:194-204 | the two adjoint loops compute the adjoints the identities are about |
| `Fit.RowInputs` | scripts/unicode-math/fit.ts:156-177 | heats and decays of a row are those read from the flat vector, with decay 1 and heat 0 at a tail |
| `Fit.LossPass` | scripts/unicode-math/fit.ts:184-193 | the loss is the weighted negative log-likelihood and `g` its slope in the score; positions of weight 0 are skipped |
| `Fit.ScatterPosition` | scripts/unicode-math/fit.ts:206-224 | one position adds its gradient to each entry of `G` exactly as often as that entry is read there, and to θ |
| `Fit.Scatter` | scripts/unicode-math/fit.ts:205-225 | the scatter loop adds to every entry of `G` the sum of all positions' contributions and changes nothing else |
| `Fit.RowGrad` | scripts/unicode-math/fit.ts:155-227 | `rowGrad` adds the row's gradient to `G`, entry by entry, and returns the row's loss |
| `Fit.EntryTotal` | scripts/unicode-math/fit.ts:205-225 | what a row adds to a shared entry is the derivative of the margin along the direction in which that entry moves the row |
| `Fit.ThetaTotal` | scripts/unicode-math/fit.ts:206 | what a row adds to the θ entry is the derivative of the margin in θ |
| `Fit.EveryEntryIsTheDerivative` | scripts/unicode-math/fit.ts:138-227 | for every entry of the flat vector, class, override, pair table or θ, the amount a row adds to `G` is the exact first-order change of the row's margin with the weights `g` fixed |
| `Fit.AccumulatesTangent` | scripts/unicode-math/fit.ts:205-225 | whatever weights `g` a row has, what its scatter adds to an entry is the tangent of the margin along that entry |
| `LossSlope.ResidualIsSlope` | scripts/unicode-math/fit.ts:191-192 | with L the slope of the position's loss in its score by the chain rule, sigma with slope p(1−p) and the logarithm with 1/x: the code's residual times the likelihood of the label is L times the likelihood raised by the guard 1e-12; it is positive exactly when the weight is and the probability is above the label, and 0 exactly when the weight is |
| `LossSlope.TermHasSlope` | scripts/unicode-math/fit.ts:190-191 | that slope is the real derivative, by its limit definition, of what the position adds to the loss |
| `LossDerivative.GradientIsDerivative` | scripts/unicode-math/fit.ts:155-227 | for every entry of the parameter vector the real derivative of the row's loss in it is what the scatter accumulates when each position's weight is the exact slope of its loss |
| `LossDerivative.WeightsAreSlopes` | scripts/unicode-math/fit.ts:192 | the weights the row uses are those slopes up to the guard of the logarithm, with their sign |
| `Fit.LinearEntryIsExact` | scripts/unicode-math/fit.ts:138-227 | raising any class-heat, override-heat, left-pair, right-pair or θ entry by ε changes Σ g·(F+B−h−θ) by exactly ε times the amount the row adds to that entry, for every ε |
| `Shuffle.Mulberry32.constructor` | scripts/unicode-math/informalize.ts:13-14 | the generator starts from the seed as a 32-bit word |
| `Shuffle.Mulberry32.Next` | scripts/unicode-math/informalize.ts:15-21 | each draw advances the state by the constant and returns the mixed word over 2^32, so always in [0,1) |
| `Shuffle.ReferenceValues` | scripts/unicode-math/informalize.ts:13-21 | what the generator emits first and second from seed 0 |
| `Shuffle.FisherYatesPermutes` | scripts/unicode-math/fit.ts:236-240 | for every sequence of swap indices the shuffled order is a permutation |
| `Shuffle.FisherYatesStep` | scripts/unicode-math/fit.ts:237-240 | one more swap from the top of the prefix continues the shuffle of the rest |
| `Shuffle.EveryOrderIsReached` | scripts/unicode-math/fit.ts:236-240 | every permutation of the rows is the result of some swap indices |
| `Shuffle.DrawsAreDetermined` | scripts/unicode-math/fit.ts:236-240 | two different sequences of swap indices give different orders: the shuffle is a bijection from draws to orders |
| `Shuffle.ShuffleInPlace` | scripts/unicode-math/fit.ts:236-240 | the in-place loop computes that shuffle of exactly the indices the generator's next draws give, each the cell of [0, i+1) its draw falls in, one draw for every row but one, and leaves the generator after them |
| `Training.SoftThresholdIsProximal` | scripts/unicode-math/fit.ts:262-264 | for λ ≥ 0 the soft-thresholded value minimises ½(y−x)² + λ·abs(y) over all real y |
| `Training.StepParameters` | scripts/unicode-math/fit.ts:253-266 | one optimizer step updates every parameter and both moment arrays; frozen and untouched entries stay |
| `AdamStep.SteadyStep` | scripts/unicode-math/fit.ts:253-266 | under a steady gradient the corrected means come out as the gradient and its square at every step, and the entry moves by the rate times the gradient over the root of its square, then through the soft threshold where it is sparse |
| `AdamStep.StepsAgainstMean` | scripts/unicode-math/fit.ts:257-262 | an entry outside the sparse block moves down exactly when its new mean gradient is positive and up exactly when it is negative |
| `AdamStep.PenaltyHasSlope` | scripts/unicode-math/fit.ts:256 | what is added to the gradient of a class heat or decay is the derivative of half l2 times its square |
| `AdamStep.PenaltiesPartTheVector` | scripts/unicode-math/fit.ts:256-264 | what a position reads for its own class is squared, what it reads for a neighbour or an override is sparse, the threshold is neither |
| `AdamStep.RateWarmsUp` | scripts/unicode-math/fit.ts:252 | the rate rises in equal steps and is the chosen one exactly from step 50 on |
| `Training.BatchGrad` | scripts/unicode-math/fit.ts:243-250 | the gradient of a batch is, entry by entry, the sum of its rows' gradients, its loss and its weight the sums of theirs |
| `Training.BatchIsSum` | scripts/unicode-math/fit.ts:243-250 | that gradient, loss and weight are sums over the rows of the batch, each row once for each time it is listed |
| `Training.UnreadGetsNothing` | scripts/unicode-math/fit.ts:243-250 | an entry no row reads gets no gradient from any batch |
| `Training.UnreadNeverMoves` | scripts/unicode-math/fit.ts:229-271 | over any number of epochs, whatever the generator draws, an entry no row reads keeps its value and its first moment stays 0 |
| `Training.TailIsUnread` | scripts/unicode-math/fit.ts:151-153 | the two frozen tail entries are read by no row at all |
| `Training.UnmovedEntry` | scripts/unicode-math/fit.ts:254 | an entry without gradient and momentum is left where it was |
| `Training.FrozenStays` | scripts/unicode-math/fit.ts:151-254 | no step moves the two tail entries |
| `Training.Batch` | scripts/unicode-math/fit.ts:243-266 | a batch moves the parameters and both moments by one step with the batch's gradient and weight, all taken at the old parameters, and returns the batch's loss there |
| `Training.EpochSteps` | scripts/unicode-math/fit.ts:241-251 | an epoch takes one step for every slice of 256 rows, the last one shorter |
| `Training.RunBatches` | scripts/unicode-math/fit.ts:241-267 | the batch loop is the fold of the batch step over the consecutive slices of 256 of an order, with the losses summed where they were taken |
| `Training.Epoch` | scripts/unicode-math/fit.ts:235-267 | an epoch leaves parameters, moments, step and loss as that fold over the permutation of the rows that the generator's draws give, every row visited once |
| `Training.TrainSteps` | scripts/unicode-math/fit.ts:229-271 | a run of e epochs takes e times that number of steps |
| `Training.Train` | scripts/unicode-math/fit.ts:229-271 | the trained parameters are the iterated fold of the epochs from zero moments and step 0, each epoch in the order of the draws that follow the earlier ones |
| `Runtime.Sparse` | scripts/unicode-math/fit.ts:279-286 | the sparse table gives back the dense block: a missing key reads as 0, a stored value is never 0 |
| `Runtime.PairKeysAreABijection` | scripts/unicode-math/fit.ts:168 | left·K + class is a bijection between pairs of classes and keys below K² |
| `Runtime.Extract` | scripts/unicode-math/fit.ts:273-296 | the returned parameters represent the trained vector: heats, decays, non-zero overrides, both pair tables and θ |
| `Runtime.MathScores` | packages/server/src/augments/unicode-math-recognizer.ts:334-373 | the two passes over one array compute the probabilities of the runtime model |
| `Runtime.RuntimeIsTheTrainedModel` | packages/server/src/augments/unicode-math-recognizer.ts:334-373 | the runtime, reading extracted parameters, gives every character the probability the training loss used |
| `DevWrapperModel.InitInv` | scripts/dev.js:1030-1058 | the invariant holds when startup has assigned `running`, if no shutdown had begun by then |
| `DevWrapperModel.RequestKeepsInv` | scripts/dev.js:749-761 | a reload request keeps the invariant: phase, servers, log of replacements, what is in flight and all counts |
| `DevWrapperModel.BuildKeepsInv` | scripts/dev.js:761-779 | the end of the client build keeps the invariant: phase, servers, log of replacements, what is in flight and all counts |
| `DevWrapperModel.ReloadPollKeepsInv` | scripts/dev.js:347-398 | a poll or timeout of a reload's stops keeps the invariant: phase, servers, log of replacements, what is in flight and all counts |
| `DevWrapperModel.ReloadResumeKeepsInv` | scripts/dev.js:781-811 | the continuations of a reload keeps the invariant: phase, servers, log of replacements, what is in flight and all counts |
| `DevWrapperModel.RecoveryPollKeepsInv` | scripts/dev.js:813-820 | a poll or timeout of a recovery's stop keeps the invariant: phase, servers, log of replacements, what is in flight and all counts |
| `DevWrapperModel.RecoveryResumeKeepsInv` | scripts/dev.js:821-825 | the continuation of a recovery keeps the invariant: phase, servers, log of replacements, what is in flight and all counts |
| `DevWrapperModel.ExitKeepsInv` | scripts/dev.js:908-925 | a launcher's exit event keeps the invariant: phase, servers, log of replacements, what is in flight and all counts |
| `DevWrapperModel.RegisterKeepsInv` | scripts/dev.js:650-663 | a backend registration keeps the invariant: phase, servers, log of replacements, what is in flight and all counts |
| `DevWrapperModel.ShutdownKeepsInv` | scripts/dev.js:827-866 | shutdown, its end and failed cleanups keeps the invariant: phase, servers, log of replacements, what is in flight and all counts |
| `DevWrapperModel.StepKeepsInv` | scripts/dev.js:749-928 | every atomic region keeps the invariant |
| `DevWrapperModel.RunKeepsInv` | scripts/dev.js:749-928 | the invariant holds on every run of regions in any interleaving |
| `DevWrapperRuns.ReplacementIsSafe` | scripts/dev.js:781-825 | on every run, each later server is started by a step that relies on one stop, recorded by an earlier step as exactly the process targets its predecessor had then (the first hang-up, the stop renewed after its timeout, or the recovery's), in flight from there to the start, and all of them were seen dead at one moment in between |
| `DevWrapperRuns.AllTargetsAwaitedIff` | scripts/dev.js:650-663 | the targets waited for are all the targets the predecessor has when its replacement starts exactly when no registration was accepted after the record, or the last one carried the backend recorded |
| `DevWrapperRuns.AlwaysAwaitedIff` | scripts/dev.js:650-663 | they are its targets at every moment from the record to the start exactly when no registration that changes its backend was accepted in between |
| `DevWrapperRuns.ReplacedBackendCanBeAlive` | scripts/dev.js:781-811 | from any end of startup, a run starts generation 2 while the backend that generation 1 registered is alive |
| `DevWrapperRuns.RecoveryIff` | scripts/dev.js:918-922 | on every run the one recovery has been used exactly when the current server once exited with a failure while the wrapper ran |
| `DevWrapperRuns.ShutdownIff` | scripts/dev.js:795-866 | on every run a shutdown has begun exactly when it was asked for, a stop failed, or the current server exited while the wrapper ran and its exit was clean or not its first failure |
| `DevWrapperRuns.StuckIff` | scripts/dev.js:760-771 | on every run the wrapper is left running without a server exactly when some client build failed after the current server had exited during its reload, and no shutdown was asked for since |
| `DevWrapperRuns.IgnoredIsErased` | scripts/dev.js:749-760 | a reload request outside the running phase, the exit of a retired launcher and a refused registration can be left out of any run: what follows is the same but for when things were recorded and which retired launchers have exited |
| `DevWrapperClient.ReloadStopsClient` | scripts/dev.js:781-811 | on every run, each completed reload comes after stops that have been under way since one step; the recorded targets of its server were seen dead at one moment, and at a later one the process table held no launcher target of the client there was when the stops began |
| `DevWrapperClient.ClientIsLastVite` | scripts/dev.js:801-809 | without a client build the client is at every moment the Vite process that the last completed reload, or startup, started |
| `DevWrapperClient.ClientIsLastLeft` | scripts/dev.js:760-805 | with one it is what the last build left, and none after a completed reload |
| `DevWrapperClient.SurvivorEndsReload` | scripts/dev.js:347-398 | a server that outlives SIGHUP, SIGTERM and SIGKILL to their deadlines ends the reload in a shutdown at the third |
| `DevWrapperModel.ShutdownIsAbsorbing` | scripts/dev.js:827-829 | once shutdown has begun no continuation of the run starts a server, registers a backend, leaves the phase or begins shutdown again |
| `DevWrapperModel.Accounting` | scripts/dev.js:749-831 | on every run the generation is 1 + completed reloads + completed recoveries, with at most one recovery and one shutdown, and every accepted reload is completed, failed, abandoned or the one in flight |
| `DevWrapperModel.OneReplacementAtATime` | scripts/dev.js:749-825 | while a reload or a recovery is in flight no other is accepted, and a step starts at most one server, which ends what was in flight |
| `DevWrapperModel.BackendPidOnlyByOwnGeneration` | scripts/dev.js:650-663 | a backend pid changes only by a registration that carries the current server's own generation and a pid above 1 |
| `DevWrapperModel.StuckStays` | scripts/dev.js:749-757 | with the current server gone and nothing in flight, nothing but a shutdown request changes that; reload requests are refused |
| `DevWrapperModel.CrashIsAnsweredIff` | scripts/dev.js:760-771 | the wrapper never gets into that state, on any run, exactly when no client is built before a reload: a server lost while its client is being built is forgotten when the build fails |
| `DevWrapperModel.NoSpawnAfterShutdownIff` | scripts/dev.js:1030-1058 | no server is started after shutdown has begun, on any run, exactly when it had not begun before startup assigned `running` |
| `DevWrapperModel.DevWrapper.constructor` | scripts/dev.js:1030-1058 | the wrapper at the end of startup, invariant established |
| `DevWrapperModel.DevWrapper.StopManagedChild` | scripts/dev.js:347-368 | a stop with no live target is done at once; otherwise it polls the targets it recorded |
| `DevWrapperModel.DevWrapper.WaitForProcessTargetsExit` | scripts/dev.js:388-398 | a poll ends the stop when no target is alive, escalates at the deadline, and fails after SIGKILL |
| `DevWrapperModel.DevWrapper.BeginShutdown` | scripts/dev.js:827-829 | shutdown sets the phase, closes control and happens once |
| `DevWrapperModel.DevWrapper.ShutdownWrapper` | scripts/dev.js:827-866 | a shutdown request is that step |
| `DevWrapperModel.DevWrapper.StartServer` | scripts/dev.js:883-906 | the new server gets the next generation, becomes current and has no backend |
| `DevWrapperModel.DevWrapper.RequestServerReload` | scripts/dev.js:749-779 | the request's region, with the invariant kept |
| `DevWrapperModel.DevWrapper.ClientBuildFailed` | scripts/dev.js:763-771 | a failed build ends the reload and returns to running unless shutting down |
| `DevWrapperModel.DevWrapper.ClientBuilt` | scripts/dev.js:772-779 | a finished build goes on to stopping the server unless shutting down |
| `DevWrapperModel.DevWrapper.PollServerStop` | scripts/dev.js:786-791 | one poll of the server's stop |
| `DevWrapperModel.DevWrapper.PollClientStop` | scripts/dev.js:794 | one poll of the client's stop |
| `DevWrapperModel.DevWrapper.FailReload` | scripts/dev.js:795-799 | an error while stopping shuts down |
| `DevWrapperModel.DevWrapper.BeginClientStop` | scripts/dev.js:792-794 | after the server's stop, on to the client's unless shutting down |
| `DevWrapperModel.DevWrapper.CompleteServerReload` | scripts/dev.js:801-809 | after the client's stop, the replacement unless shutting down |
| `DevWrapperModel.DevWrapper.StartReplacement` | scripts/dev.js:802-809 | the replacement itself: client, server, generation, log and phase |
| `DevWrapperModel.DevWrapper.PollRecovery` | scripts/dev.js:813-816 | one poll of a recovery's stop |
| `DevWrapperModel.DevWrapper.FailRecovery` | scripts/dev.js:816-820 | a failed recovery shuts down |
| `DevWrapperModel.DevWrapper.RecoverUnexpectedServer` | scripts/dev.js:821-825 | the retry, unless the wrapper moved on |
| `DevWrapperModel.DevWrapper.ServerExited` | scripts/dev.js:908-925 | the exit handler |
| `DevWrapperModel.DevWrapper.RegisterBackend` | scripts/dev.js:650-663 | the registration handler and its answer |
| `LineForward.SplitResumes` | scripts/dev.js:68-72 | splitting a stream can stop anywhere and resume from the unfinished rest, also between a carriage return and its newline |
| `LineForward.LineForwarder.OnData` | scripts/dev.js:68-78 | after a chunk the output and the buffer are those of everything seen so far |
| `LineForward.LineForwarder.OnEnd` | scripts/dev.js:80-84 | the end of the stream writes the unfinished rest unless it is empty or suppressed |
| `LineForward.Forward` | scripts/dev.js:62-84 | for every way of cutting a stream into chunks the output is that of splitting the whole stream at once |
| `LineForward.LineIsItsOwn` | scripts/dev.js:68-78 | a complete line adds itself and a newline to the output, or nothing if it is suppressed, whatever stands before and after |
| `LineForward.LastLineIsItsOwn` | scripts/dev.js:80-84 | an unfinished last line is written as it is, or not at all if it is suppressed or empty |
| `LineForward.NothingSuppressed` | scripts/dev.js:71-76 | with nothing suppressed, forwarding is the text with every carriage return before a newline dropped |
| `ArtifactStream.WorkerActsKeepInv` | artifact-host/worker.js:104-121 | pull, consumer cancel and timeout keep the protocol invariant |
| `ArtifactStream.DeliverToWorkerKeepsInv` | artifact-host/worker.js:122-142 | delivering a reply keeps it |
| `ArtifactStream.DeliverToBrokerKeepsInv` | research/content-worker-localhost-spike/parent.ts:106-116 | delivering a pull or a cancel keeps it |
| `ArtifactStream.ReadKeepsInv` | research/content-worker-localhost-spike/parent.ts:123-128 | a read that returns bytes keeps it |
| `ArtifactStream.ReadEndsKeepInv` | research/content-worker-localhost-spike/parent.ts:117-136 | a read that ends or fails keeps it |
| `ArtifactStream.RunKeepsInv` | artifact-host/worker.js:102-150 | the invariant holds on every run of both sides and their two queues |
| `ArtifactStream.BodyIsAPrefix` | artifact-host/worker.js:102-150 | on every run the body is a prefix of what the reader produced, at most one pull is unanswered, no byte limit is exceeded and the body closes normally only after the reader said it was done |
| `ArtifactStream.CreditIsNeverLost` | artifact-host/worker.js:114-145 | a pull still waited for is in exactly one place: queued with the broker's port open, a read in flight, or one queued reply |
| `ArtifactStream.NothingAfterEnd` | artifact-host/worker.js:104-145 | after close, error, timeout or cancel nothing changes the worker any more: no pull, no byte, no second ending |
| `ArtifactRelease.EarlyEndIff` | artifact-host/worker.js:104-142 | a step ends a readable body early exactly when its consumer cancels, a waiting pull times out, or a failure or bytes beyond the limit are delivered to a worker that listens; it then posts exactly one cancel |
| `ArtifactRelease.EndedBodyReleases` | artifact-host/worker.js:104-145 | on every run, once the body has ended a cancel is queued to the broker, or its reader is being cancelled, or the reader is free and the port closed |
| `ArtifactRelease.EndedReaderIsFreed` | research/content-worker-localhost-spike/parent.ts:106-136 | from there, delivering what is queued and finishing the cancel frees the reader |
| `ArtifactRelease.SendsWithinLimits` | research/content-worker-localhost-spike/parent.ts:123-128 | bytes are sent only as the answer to a read of the next ones, with the file's and the viewer's counts within 8 and 32 MiB, this read included |
| `ArtifactRelease.BeyondLimitsFails` | research/content-worker-localhost-spike/parent.ts:125-136 | a read beyond either limit is answered with a failure and its reader cancelled |
| `ArtifactStream.ClosedBodyIsWholeIff` | research/content-worker-localhost-spike/parent.ts:114-130 | on every run, a body that closed normally is the whole file exactly when the viewer was never closed while its reader, not yet cancelled, had bytes left |
| `ArtifactStream.AbortedNeverCloses` | research/content-worker-localhost-spike/parent.ts:165-170 | where the transport's body obeys the abort, closing the viewer before the end was reported means that the body never closes normally, on any continuation |
| `ArtifactStream.DeliverableIff` | research/content-worker-localhost-spike/parent.ts:123-126 | a file can be delivered whole exactly when it is within the broker's limit of 8 MiB a read |
| `ArtifactStream.AnyBrokerIsBounded` | artifact-host/worker.js:122-142 | against any messages at all the worker's body stays within MAX_FILE_BYTES and an ended stream stays ended |
| `ArtifactStream.Body.StartPull` | artifact-host/worker.js:114-145 | the pull callback: the new state and what is posted are those of the protocol step, invariant kept |
| `ArtifactStream.Body.ConsumerCancels` | artifact-host/worker.js:104-110 | the cancel callback: the new state and what is posted are those of the protocol step, invariant kept |
| `ArtifactStream.Body.TimesOut` | artifact-host/worker.js:117-121 | the timeout: the new state and what is posted are those of the protocol step, invariant kept |
| `ArtifactStream.Body.OnMessage` | artifact-host/worker.js:122-142 | the message handler: the new state and what is posted are those of the protocol step, invariant kept |
| `ArtifactStream.OpenFile.OnMessage` | research/content-worker-localhost-spike/parent.ts:106-116 | a message from the worker: the new state and what is posted are those of the protocol step |
| `ArtifactStream.OpenFile.OnRead` | research/content-worker-localhost-spike/parent.ts:123-128 | bytes read, within both limits or refused: the new state and what is posted are those of the protocol step |
| `ArtifactStream.OpenFile.OnReadDone` | research/content-worker-localhost-spike/parent.ts:117-122 | the end of the file: the new state and what is posted are those of the protocol step |
| `ArtifactStream.OpenFile.OnReadError` | research/content-worker-localhost-spike/parent.ts:131-136 | a failed read: the new state and what is posted are those of the protocol step |
| `ArtifactStream.OpenFile.OnCancelDone` | research/content-worker-localhost-spike/parent.ts:107-112 | a finished cancel: the new state and what is posted are those of the protocol step |
| `ArtifactStream.OpenFile.OnHostClose` | research/content-worker-localhost-spike/parent.ts:165-170 | the viewer closing: the new state and what is posted are those of the protocol step |
| `BrokerAdmission.AdmissionIsBounded` | research/content-worker-localhost-spike/parent.ts:65-97 | on every run at most 8 requests are pending and at most 15 are pending or open |
| `BrokerAdmission.AdmittedIff` | research/content-worker-localhost-spike/parent.ts:61-82 | a request is admitted exactly when it has a port, comes from the own viewer before the close, asks for a granted path, fewer than 8 are pending and fewer than 8 readers open, and at most 64 paths were asked for with it; the other answers, exactly |
| `BrokerAdmission.AdmittedAreAccountedFor` | research/content-worker-localhost-spike/parent.ts:81-103 | on every run each admitted request is still pending, got its reader, or ended without one |
| `BrokerAdmission.FifteenReadersCanBeOpen` | research/content-worker-localhost-spike/parent.ts:65-97 | the bound is reached: fifteen readers can be open although each request was admitted with fewer than eight |
| `BrokerAdmission.EightHoldIff` | research/content-worker-localhost-spike/parent.ts:65-97 | pending requests and open readers together stay within 8 on a run exactly when each of its requests was admitted while they were fewer than 8 |
| `BrokerAdmission.LatchedForGood` | research/content-worker-localhost-spike/parent.ts:76-81 | once more than 64 paths were asked for, no later request is ever admitted, whatever it asks for |
| `BrokerAdmission.CanLatchIff` | research/content-worker-localhost-spike/parent.ts:76-81 | a viewer can lock itself out in this way exactly when it was granted more than 64 files |
| `BrokerAdmission.Viewer.OnRead` | research/content-worker-localhost-spike/parent.ts:61-82 | the admission test in order, with its three answers |
| `BrokerAdmission.Viewer.OnResponse` | research/content-worker-localhost-spike/parent.ts:84-103 | a response opens a reader, ends the request or is discarded after close |
| `BrokerAdmission.Viewer.CloseViewer` | research/content-worker-localhost-spike/parent.ts:165-167 | closing stops admission |
| `BrokerAdmission.Viewer.OnReadersCancelled` | research/content-worker-localhost-spike/parent.ts:169-170 | after close no reader is left |
| `PercentCoding.DecodeEncodedChar` | artifact-host/worker.js:47 | an encoded character decodes first, whatever follows it |
| `PercentCoding.DecodeEncode` | artifact-host/bootstrap.js:100 | decoding undoes encoding for every text, through UTF-8 of one to four bytes |
| `PercentCoding.StaysIff` | artifact-host/bootstrap.js:100 | letters, digits and the nine unreserved marks stay, every other character is escaped |
| `EntryPath.SplitJoin` | artifact-host/worker.js:44-47 | splitting undoes joining for segments without a slash |
| `EntryPath.JoinSplit` | artifact-host/bootstrap.js:100 | joining undoes splitting |
| `EntryPath.FrameSourceSegments` | artifact-host/bootstrap.js:100 | the frame's address of a good entry has exactly the encoded segments, and parsing the address removes none of them |
| `EntryPath.EntryRoundTripIff` | artifact-host/worker.js:44-58 | an entry reaches the worker's request unchanged exactly when its segments are non-empty and do not start with a dot and it has no backslash or NUL |
| `EntryPath.AcceptedIsNormal` | artifact-host/worker.js:51-58 | any accepted path is its own dot-segment normal form |
| `EntryPath.WorkerAnswerIff` | artifact-host/worker.js:44-58 | the worker's answer exactly: 400 where a segment does not decode, a path where the address names a viewer by 32 hex digits and the decoded path has no backslash, no NUL, no empty and no dot-leading segment, 403 otherwise |
| `EntryPath.StepBackArrivesElsewhere` | artifact-host/bootstrap.js:100 | an entry `x/../y` with good `x` and `y` arrives as the path `y` |
| `EntryPath.StepOutIsRefused` | artifact-host/worker.js:44-58 | the entry `..` is refused |
| `ImportSplice.UnwindingWraps` | packages/client/vite-plugin-reload-notify.ts:19-26 | inserting the texts from the last position to the first turns the printed tree into the print of the tree with every import wrapped once |
| `ImportSplice.EditsAreOrdered` | packages/client/vite-plugin-reload-notify.ts:19-26 | positions are in source order and within the text |
| `ImportSplice.CollectedAreTheEdits` | packages/client/vite-plugin-reload-notify.ts:9-26 | the walk collects exactly these positions |
| `ImportSplice.OnlyOneOrder` | packages/client/vite-plugin-reload-notify.ts:138-143 | if no import ends where another begins, every sort by falling offset inserts the same |
| `ImportSplice.WrapsIffSeparated` | packages/client/vite-plugin-reload-notify.ts:137-143 | the splice is the tree transformation, whatever order ties come out in, exactly when no import ends where another begins |
| `ImportSplice.Positions.DynamicImports` | packages/client/vite-plugin-reload-notify.ts:8-26 | the recursive walk pushes both positions of every import node |
| `ImportSplice.InsertAll` | packages/client/vite-plugin-reload-notify.ts:138-143 | the loop inserts one text after the other |
| `ImportSplice.Transform` | packages/client/vite-plugin-reload-notify.ts:128-148 | nothing for a rejected file or one without imports; otherwise the header and the wrapped source |
| `StableSort.SortSorts` | packages/client/vite-plugin-reload-notify.ts:138-140 | the sort leaves a sorted permutation |
| `StableSort.SortKeepsTies` | packages/client/vite-plugin-reload-notify.ts:138-140 | and leaves elements of equal keys in their order |
| `CssRules.FindRuleForClass` | scripts/find-unused-css.ts:1485-1585 | the scan finds the rule the specification names, grouped or not, or none |
| `CssRules.AnswerIff` | scripts/find-unused-css.ts:1505-1548 | each answer exactly: none where no brace opens or an ungrouped block never balances, a group where the text of the selector is one, otherwise a rule to remove |
| `CssRules.KeptAreUngrouped` | scripts/find-unused-css.ts:1617-1632 | every range kept for removal is that of a class line whose selector is not a group |
| `CssRules.RuleStartsMonotone` | scripts/find-unused-css.ts:1494-1577 | a rule found for a later line does not start earlier, comments included |
| `CssRules.RuleIsBalanced` | scripts/find-unused-css.ts:1494-1577 | the range of a rule: comment-like lines with no blank among them, the selector up to the first line with an opening brace, then exactly to the first line at whose end the braces of the whole lines from there cancel out |
| `CssRules.CommentForms` | scripts/find-unused-css.ts:1552-1554 | indented or not, a line that starts with a slash and a star or with a star looks like a comment, and no other |
| `CssRules.SelectorReachesClassIff` | scripts/find-unused-css.ts:1493-1520 | the selector found reaches the class's own line exactly when that line opens a brace or the nearest line above with a brace only closes |
| `CssRules.EarlierRuleIsTaken` | scripts/find-unused-css.ts:1493-1520 | whenever a class's line opens no brace and the nearest line above with a brace opens one, the rule found is that of the line above, for every sheet |
| `CssRules.SwallowsIff` | scripts/find-unused-css.ts:1550-1577 | for every sheet and line, the range deletes another rule above its own selector exactly when the comment-like lines scanned there hold an opening brace and no blank |
| `CssRules.LeavesSelectorIff` | scripts/find-unused-css.ts:1493-1577 | for every sheet and line, text of the selector stays behind above the range exactly when the scan, with no brace on its way, stops at a line of text without a brace |
| `CssRules.LeavesDirectlyAboveIff` | scripts/find-unused-css.ts:1493-1577 | nothing stays behind directly above the selector exactly when the line above has a brace, is blank or comment-like, or is none |
| `CssOwnRule.RuleCloses` | scripts/find-unused-css.ts:1533-1548 | where the opening brace is the first stop on its line and no code follows the closing brace on its line, the line counting ends exactly at the brace that closes the rule by running depth over characters |
| `CssOwnRule.DeletesOwnRuleIff` | scripts/find-unused-css.ts:1485-1585 | by character positions, for every sheet and place of the class: the code on the lines of the range is exactly the code of the class's own rule, from its selector to the brace that closes it by running depth, exactly when its braces stand alone on their lines and the code above the range ends in a brace or semicolon |
| `CssOwnRule.RuleStartIff` | scripts/find-unused-css.ts:338 | on the line where a rule starts, which is what the caller passes, the condition on the braces alone is exact |
| `CssRules.KeptRangesAreStacked` | scripts/find-unused-css.ts:1617-1632 | with classes in line order the endpoint-only overlap test makes the kept ranges pairwise disjoint |
| `CssRules.EveryRuleIsTouched` | scripts/find-unused-css.ts:1617-1632 | no rule found is forgotten: it is kept or really overlaps one that is |
| `CssRules.EndpointTestIff` | scripts/find-unused-css.ts:1622-1629 | for any two ranges the endpoint test agrees with true overlap exactly when the new range does not strictly enclose the kept one |
| `CssRules.CutAllLeavesOutside` | scripts/find-unused-css.ts:1650-1653 | splicing from the bottom up leaves exactly the lines outside all ranges |
| `CssRules.CollapsedIsClean` | scripts/find-unused-css.ts:1655-1663 | no two blank lines stay adjacent, every other line is kept in order with a blank before it just when there was one, and a second pass changes nothing |
| `CssRules.SortedFalls` | scripts/find-unused-css.ts:1638 | sorting disjoint ranges by falling start is bottom-up order |
| `CssRules.KeepRanges` | scripts/find-unused-css.ts:1617-1635 | the loop keeps the ranges the specification names |
| `CssRules.CollapseBlanks` | scripts/find-unused-css.ts:1655-1663 | the loop collapses blank runs |
| `CssRules.RemoveUnusedRules` | scripts/find-unused-css.ts:1601-1676 | with classes in line order the file written is exactly the lines outside the kept ranges with blank runs collapsed, every kept range is that of an ungrouped selector, and nothing is written when none is kept |
| `Reachability.ClosedHoldsReachable` | scripts/find-unused-css.ts:1279-1295 | a closed set that holds the roots holds everything reachable |
| `Composes.Follows` | scripts/find-unused-css.ts:1282-1294 | an edge adds its target, and nothing else, exactly when its source is reached and its target is not; each addition leaves fewer targets to find |
| `Composes.Trace` | scripts/find-unused-css.ts:1269-1295 | the loop ends with the least closure of each seed set, which is exactly what paths of compose edges reach |
| `Preload.Visitor.Visit` | packages/client/vite-plugin-new-session-preload.ts:31-37 | a visit extends the shared list without duplicates, and everything it adds has its imported chunks in the list; it terminates on cycles |
| `Preload.FindChunk` | packages/client/vite-plugin-new-session-preload.ts:39-43 | the first listed chunk that holds the module, or none |
| `Preload.PreloadList` | packages/client/vite-plugin-new-session-preload.ts:25-50 | the list is exactly the chunks reachable from the entry modules' chunks, each once; a module without a chunk is reported |
| `Spans.RunIsExact` | scripts/unicode-math/sources.ts:266-303 | in every run the spans name exactly their delimited source, in order and disjoint |
| `Spans.TokensStandInText` | scripts/unicode-math/sources.ts:283-296 | the text of a stretch is what stands for its tokens, one after the other: text as it is, one space for a break, math with its delimiters, nothing for the rest |
| `Spans.StretchesJoin` | scripts/unicode-math/sources.ts:297-305 | a paragraph is its stretches with the dividers between them, and no stretch holds a divider |
| `Spans.RunsOfStretches` | scripts/unicode-math/sources.ts:266-282 | each stretch whose trimmed text has 3 to 2000 characters gives its run, and every run is trimmed and of that length |
| `Spans.NoSpanIsLost` | scripts/unicode-math/sources.ts:270-278 | the filter after trimming drops no span, as delimiters are not blank at the outside |
| `Spans.Segmenter.Flush` | scripts/unicode-math/sources.ts:266-282 | a flush yields the trimmed run with shifted spans if its length is allowed, and starts afresh |
| `Spans.Segmenter.Take` | scripts/unicode-math/sources.ts:283-296 | a token adds its text, and a span if it is valid math |
| `Spans.InlineRuns` | scripts/unicode-math/sources.ts:261-306 | the runs of a paragraph are those of its stretches between dividers |
| `Labels.LabelsAreExact` | scripts/unicode-math/corpus.ts:187-214 | each label covers exactly its substituted math, labels are in order and disjoint, and undoing the substitutions gives back the run |
| `Labels.RowOfRunIsExact` | scripts/unicode-math/corpus.ts:187-214 | the same for every run a paragraph yields: what a row replaces is exactly the delimited math |
| `Labels.BuildRow` | scripts/unicode-math/corpus.ts:187-214 | the loop builds the substituted text and its labels; one missing or empty formula drops the run |
| `Labels.AmbiguousSpans` | scripts/unicode-math/corpus.ts:138-161 | a word is covered exactly when it stands in an unbroken run of short words that holds an operator; spans run from word to word, disjoint and in order, and between two of them stands a word that is not short |
| `ScriptTables.ScriptsAreBare` | scripts/unicode-math/informalize.ts:24-102 | every superscript and subscript of the tables stands for the character it was made from |
| `Informalize.ScriptKinds` | scripts/unicode-math/informalize.ts:134-138 | a caret writes the superscript of a character and an underscore its subscript |
| `Informalize.DigitScripts` | scripts/unicode-math/informalize.ts:25-77 | the scripts of the ten digits, by code point |
| `Informalize.ScriptArg` | scripts/unicode-math/informalize.ts:119-132 | an argument is the inside of the first balanced group, or else a longest run of letters, signed or not, or one other character, and none exactly when there is no such text; the scan advances and keeps the skeleton |
| `Informalize.TokenEndIff` | scripts/unicode-math/informalize.ts:130-131 | the token the scan finds is the only one there is |
| `Informalize.WriteScript` | scripts/unicode-math/informalize.ts:134-148 | for every draw the written script keeps the skeleton and has one of the four allowed forms |
| `Informalize.InformalizeInner` | scripts/unicode-math/informalize.ts:151-166 | inside a script every mark with its argument takes one of the four forms and every other character stays, or the text stays as it was where some mark has no argument; the skeleton is kept |
| `Informalize.SpaceOperators` | scripts/unicode-math/informalize.ts:169-184 | every character stays, and exactly the operators outside brackets that are not signs get a space on either side |
| `Informalize.SignsAreNotOperators` | scripts/unicode-math/informalize.ts:177-182 | an operator is a relation or binary character outside brackets, but no plus or minus at the start or after an opening bracket, an equals sign, a comma, a space or a script mark |
| `Informalize.SpellSuperscripts` | scripts/unicode-math/informalize.ts:196-201 | every longest run of superscript digits stays or becomes a caret and its digits, and every other character stays |
| `Informalize.RewriteScripts` | scripts/unicode-math/informalize.ts:202-214 | the text written is the text read character by character, but every mark with its argument takes one of the four forms of the argument, itself respelled; a text is rejected only where some mark has no argument |
| `Informalize.BareScriptReadsBackIff` | scripts/unicode-math/informalize.ts:119-148 | a script written bare is read back as its own argument exactly when no letter or digit follows |
| `Informalize.DropLeadingZeros` | scripts/unicode-math/informalize.ts:216 | for every text exactly those zeros go that stand before a point and a digit and after neither a digit nor a point |
| `Informalize.Rewrite` | scripts/unicode-math/informalize.ts:196-219 | for every choice sequence the result is, white space apart, the text with its superscripts spelled, its scripts in the allowed forms and its minus signs perhaps as hyphens, without exactly its leading zeros when that step was chosen; white space is single and inside; the skeleton is kept but for those zeros; nothing is returned only for a rejected or blank text |
| `IncomingShares.ShareStore.DropExpired` | packages/client/public/sw.js:206-216 | exactly the records still fresh are retained, the others deleted |
| `IncomingShares.ShareStore.EvictOldest` | packages/client/public/sw.js:218-221 | the oldest are deleted until at most three remain |
| `IncomingShares.ShareStore.StoreIncomingShare` | packages/client/public/sw.js:188-229 | the store then holds the new share and as many of the fresh records as fit, none of them older than one evicted |
| `IncomingShares.OnlyFreshShares` | packages/client/public/sw.js:188-229 | over any sequence of shares from an empty store, every record held is that of an earlier share and still fresh |
| `IncomingShares.StoreShares` | packages/client/public/sw.js:188-229 | storing any sequence of shares from the empty store leaves at most four records, among them the last share, each that of an earlier share and still fresh |
| `IncomingShares.LastFourShares` | packages/client/public/sw.js:188-229 | with a clock that moves forward and no expiry the store is exactly the last four shares |

## Left out

- Floating-point rounding: all numbers of the fit are reals; `sigmoid`, `log` and the square root are arbitrary functions, and only `LossSlope` and `LossDerivative` assume the slopes of the first two.
- The `prepare` step of the fit, feature extraction, seed tables and the binary parameter format.
- Gradients of logit entries for a finite step: the loss is not linear in them, so the claim there is the derivative.
- The Windows branch of the dev wrapper (`taskkill`), provider-host discovery and the removal of retired client builds.
- What the shutdown body itself stops, and rejections nobody handles, such as a failing SIGHUP or a failing removal of builds.
- `DevWrapperModel.DevWrapper.RegisterBackend`: the token check and malformed requests are not part of the model, as they only refuse.
- `LineForward.Forward`: chunks are characters; a character whose bytes are split between two chunks is decoded wrongly by the code and is not part of the model.
- The head handshake of the worker, its status codes and headers, and the lookup of the broker window.
- In `ArtifactStream`, other files of the same viewer appear only as the bytes they add to the shared total.
- Registration, connect and close messages of the bootstrap page.
- `EntryPath.EntryRoundTripIff`: entries are sequences of Unicode scalar values; a lone surrogate, on which encoding throws, is not part of the model.
- The parsers of TypeScript, style sheets, Markdown and TeX: trees, lines and tokens are given. Regular expressions that classify text are arbitrary predicates.
- In `ImportSplice`, that printed positions agree with the parser's offsets is the definition of a tree's print.
- `CssOwnRule.DeletesOwnRuleIff`: braces in comments and strings count as braces, as they do in the code, so that `a{ /* } */` being cut short is not told apart; which other characters stand in comments and strings is arbitrary, and an attached comment may go with a rule.
- `CssRules.FindRuleForClass`: the line number is one the extraction gave, so within the file.
- Folding of letters, invisible operators and quotes before superscript spelling, and the rejection of build-up characters.
- `Informalize.Rewrite`: strings are sequences of code points, not of UTF-16 units; when the result is rejected is not specified beyond being empty or lacking a script argument.
- Choosing which negative rows to keep, the statistics counters and the label class of a formula.
- Display-math and code tokens of the segmenter, which become whole runs without any arithmetic on positions.
- In `IncomingShares`, the database transaction is one step and file contents are not part of a record.
- The analysis that decides which classes and modules are used, everything that drives devices, tests, audits and reports.
