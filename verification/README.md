# bento262, modelled and proved in Dafny

bento262 runs the test262 conformance suite through an ahead-of-time TypeScript compiler. This project
models the parts of it whose correctness is not local to one function, and proves what they promise.
`dafny verify dfyconfig.toml` checks all of it.

**The run protocol** (`RunProtocol`, `RunHistory`, `BuildCachePin`, `SweepHistory`, `SweepAlone`). A feeder,
workers with their subprocesses, a collector, an abort signal and the build-cache janitor run concurrently over
two unbuffered channels, a shared in-flight map and a shared directory. They are a labelled transition system:
one step is one atomic action of one actor, an unbuffered send and its receive are one step, a logical clock
ticks at any time, and a subprocess can die, or fail to read, at any time. A request line goes through a pipe
of a given capacity. A sweep of the janitor is split into reading the clock, looking at in-flight jobs one at a
time, and checking and removing entries one at a time. Theorems hold for every run, that is every finite
interleaving. The two histories tell a run by its steps: which step decided a recorded result and what a
subprocess had replied by then, and what clock and stamps a sweep's cutoff came from. `SweepAlone` says what a
sweep does that nothing comes between.

**The sloppy for-head hoister** (`Bytes`, `MaskLiterals`, `Identifiers`, `ForHeads`, `BindingGrammar`,
`PatternWalk`, `EcmaPatterns`, `Hoist`, and `BodyLexing`, `TextOverlay`, `BodyTexts`, `BodyNames`,
`PlainHeads`, `BodyCode`, `OverlookedReads`). The masking scan, the identifier scan, the for-head search, the pattern lexer and the
explicit-stack pattern walk are loops proved against simple recursive forms: a per-character automaton, a
byte-by-byte test, a byte-by-byte search and a recursive-descent parser, itself proved to decide a grammar.
On those forms the scanners are proved to agree on byte offsets, and the hoist to declare exactly the names
that the masked text binds in for-heads and nowhere else mentions. The grammar is the one the code accepts.
`EcmaPatterns` says how it relates to section 13.15.5 of ECMA-262: every pattern of plain names is accepted with
just its targets, and what else is accepted behind one bracket has a comma where a property should start, a rest
that is not one target at the end, a key without a target, or a default that is no expression.

The other modules set this against the body itself, with notions of their own. `BodyLexing` lexes it as section 12
of ECMA-262 does, with template substitutions, regular expressions and all four line terminators; `BodyNames`
says what its names are, escapes, private names, properties and numerals told apart, where its for-heads open and
their bindings end, and what they bind; `PlainHeads` proves that in code without escapes the scanners find just
these; `BodyTexts` and `TextOverlay` compare the body's code, the code without substitutions and the masked text.
`BodyCode` states a guard that can be checked on the body. Behind it a declared name is read in the body exactly where a
substitution mentions it, and the declared names are exactly those the body binds and mentions nowhere else,
but for names that letters of a regular expression or a numeral spell. `OverlookedReads` has bodies outside the
guard whose declared name is read, one for each kind of mistake.

**The verdict caches** (`Keys`, `VerdictCache`, `CacheFile`, `Aot`, `Resume`, `TailRuns`). A cache is a class
over a file of lines that denotes a map. `CacheFile` says what a whole run makes of such a file, however it
ends. `Resume` runs the run protocol again and again over the results file the run before it left, and
compares what comes out with one run without a cache. `TailRuns` does the same for the tail file, which
workers load while the collector writes it, across compiler versions and runtimes.

**Smaller parts.** The property probes of `propertyHelper.ts` on ordinary objects (`PropertyHelper`), the
module graph walk (`ModuleGraph`), the ceiling janitor (`BuildCache`), the golden file (`Expectations`),
and composing, auditing and expanding cases (`Compose`, `ComposedText`). `Types` and `Strings` hold what several share.

## What turned out otherwise than the source says

- A run can hang. `send` writes the request line before it starts its timer (`pkg/tc39/orchestrator.go:291`
  and `323`), so a subprocess that lives but does not read blocks its worker for good as soon as a line is
  longer than the pipe holds, and with the worker the feeder's `wg.Wait` and the collector. No run can get
  stuck like that if and only if every line fits (`RunProtocol.NeverStuckIff`).
- A declared name can be read in the body, against `pkg/tc39/hoist.go:13-24`, `118-124` and `333-340`. Each
  of these is a body that declares `x` and reads it:
  - `` `${x}`;for(x of y); ``: masking blanks substitutions (`OverlookedReads.SubstitutionIsOverlooked`);
  - `/'/;x;/'/;for(x of y);`: a quote in a regular expression hides what follows
    (`OverlookedReads.QuoteIsOverlooked`);
  - `[/[for([a=[]/,x] in y;`: the letters of a regular expression spell a head that binds what is read behind
    it, so an identifier seen there does not only ever cost a hoist (`OverlookedReads.SpeltHeadIsOverlooked`);
  - `for([x][y] of z);`: the walk gives up inside a pattern, but behind one, with the frame stack empty,
    `[`, `{` and `,` are accepted again, and both names become targets
    (`OverlookedReads.MemberTargetIsOverlooked`, `PatternWalk.SecondPatternAccepted`);
  - `o.for([x] in y);`: a call of a property named `for` is taken for a head
    (`OverlookedReads.ForCallIsOverlooked`);
  - a line comment that ends at a carriage return: masking goes on to the line feed
    (`OverlookedReads.CommentIsOverlooked`);
  - `\u0078;for(x of y);`: escapes are not decoded (`OverlookedReads.EscapeIsOverlooked`);
  - `1.`, a line feed, and `x;for(x of y);`: a decimal point is taken for the dot of a property
    (`OverlookedReads.PointIsOverlooked`).

  The guard shuts these out, and only substitutions are let through: it asks that substitutions hold no
  backquote, no backslash and no `for`; that regular expressions hold no quote, no slash but the last and no
  `for`, and no slash or star follows them; that neither stands where the search for a head's keyword goes; that line
  comments end at a line feed; that the code is ASCII without backslash, `#` and HTML's comments; that no
  dot behind a digit stands before blanks or one more dot and a name; that no `for` stands behind a dot; and that
  every binding found does not start with `of`, holds no `for` and, if the walk accepts it, is a lone identifier
  that is no keyword, or one pattern. Behind it, a declared name is read exactly where substitutions mention it
  (`BodyCode.GuardedHoist`), and which names are declared is exact (`BodyCode.GuardedExact`).
- A keyword can be declared: for the body `for(var of of y);` the hoister emits a declaration of `var`
  (`OverlookedReads.KeywordIsDeclared`).
- A job whose result reached the results cache can run again, against `pkg/tc39/cache.go:33-37`. `Put` keeps
  the file in step with the entries if and only if the key is not empty and the file ends in a newline
  (`VerdictCache.AppendExtendsIff`). On a file cut off by a kill the first new result is lost, and no other new one,
  unless the run goes on to Save (`Resume.RunsAgainIff`); nothing is ever lost exactly on files that end in a
  newline (`Resume.NothingRunsAgainIff`). The verdicts stay right either way (`Resume.ResumedEqualsPlain`).
- A machine can cause a third status: `compileGo` kills `go build` after two minutes
  (`pkg/tc39/aot.go:184`), and the job becomes a `fail` that both caches keep and replay, against
  `pkg/tc39/cache.go:14-19`. Each cache then stays sound exactly if the program fails to build in just that
  way anyway (`Aot.CutOffIsRecorded`, `TailRuns.CutOffReachesResults`).
- Cache keys and fingerprints separate their parts by NUL bytes. Among jobs with the same async flag and source a
  key is that of one job and version exactly when version, ID, error type and phase hold no NUL
  (`Keys.JobKeySeparatesIff`); error type and phase come from YAML, where an escape can be a NUL
  (`Keys.NulInTypeCollides`). Among all jobs the source must besides hold nothing that could pass for the part of
  the async byte (`Keys.JobKeyAloneIff`, `Keys.TailKeyAloneIff`). Files are told from other lists of as many
  exactly when no name and no content holds a NUL (`Keys.FilesOfANumberIff`), and two files or more never from
  all lists (`Keys.FilesIff`).
- The audit and `Compose` part over a port that is there and cannot be read: it stops the expansion before a
  later include without a port is met (`Compose.DeclinesIffUnported`, `Compose.LockedPortComesFirst`). The
  reach of an include is not always the number of jobs it gates, against `pkg/tc39/includes.go:22-26`: it is
  exactly when every execution that names it is neither raw nor CanBlockIsFalse and can read all it splices
  before (`Compose.ReachIsGatedIff`).
- `verifyProperty` with `restore` throws a TypeError instead of returning for a configurable property of a
  non-extensible object whose descriptor says `configurable: true`: the probe deleted what cannot be
  added again (`PropertyHelper.RestoreThrows`). `isWritable` with an explicit value that is the present one
  calls a read-only property writable (`PropertyHelper.ReadOnlyCalledWritable`), and with another property to
  look at it can leave its probe value behind (`PropertyHelper.ProbeStays`).
- Early negative tests whose source the lowerer declines are handed back, since that check comes first
  (`pkg/tc39/aot.go:110-123`); a front-end rejection of them passes.

## Assumptions

- Bytes are characters; only the bytes the scanners look at matter.
- SHA-256 is injective: a key is identified with the bytes fed to the hash.
- One logical clock that never runs backwards stamps jobs and files alike.
- A build-cache path outside the baseline belongs to the one build that wrote it, as
  `pkg/tc39/cachejanitor.go:256-258` states.
- Job IDs are unique. `Compose.JobIdsDistinct` proves it of cases with distinct paths.
- ID and composed source fix a job's file names and staged modules (`Resume.Pinned`): the corpus is a
  pinned submodule (`README.md:53`), and `JobKey` leaves them out.
- A verdict is a function of the job and the compiler version, except that any job may time out or crash.
  No build is cut off by its deadline (`Aot.CutOffIsRecorded` and `TailRuns.CutOffReachesResults` say what
  happens otherwise).
- A walk over the build cache meets every entry that is there and not written to throughout the walk.
- One fingerprint of the runtime stands for one build and one behaviour of every program.
- Starting and killing a subprocess returns.

## Model

| member | source | states |
|---|---|---|
| RunProtocol.ChannelsKept | pkg/tc39/orchestrator.go:106-142 | every step of every actor keeps the channels' bits with the feeder: jobs are open exactly while it feeds, results close only when every worker has left its loop |
| RunProtocol.PairingKept | pkg/tc39/orchestrator.go:286-327 | every step keeps each worker and its subprocess in agreement: a quiet pipe before a send, exactly one request or answer, for the job just sent, during it, no subprocess shared, none sent more than its share |
| RunProtocol.AccountKept | pkg/tc39/orchestrator.go:108-132 | every step keeps the fed jobs split without overlap into those recorded and those one worker each is busy with |
| RunProtocol.FlightKept | pkg/tc39/orchestrator.go:353-355 | every step keeps the in-flight map at exactly the jobs between their Store and Delete, each stamped no later than stored, none stored twice |
| RunProtocol.AnswersMatchRequests | pkg/tc39/orchestrator.go:286-327 | in every run the result a worker forwards carries the ID of the job it just sent, although timeouts and errors leave answers in pipes |
| RunProtocol.SubprocessesAreRecycled | pkg/tc39/orchestrator.go:335-369 | with a job limit, no subprocess is in any run sent more jobs than the limit |
| RunProtocol.NoSendOnClosed | pkg/tc39/orchestrator.go:117-142 | in every run the feeder has a job to send only while the job channel is open, a worker a result only while the result channel is open and the collector receives |
| RunProtocol.RecordedOnce | pkg/tc39/orchestrator.go:169-171 | a delivered result is of a job of the run that has no result yet, so nothing is recorded twice or overwritten |
| RunProtocol.RunComplete | pkg/tc39/orchestrator.go:117-190 | when the collector exits, nothing is in flight and exactly the jobs handed out have one result each; without an abort these are all jobs |
| RunProtocol.StepsDecrease | pkg/tc39/orchestrator.go:108-142 | every step of feeder, workers and collector makes the rest of the run strictly smaller; subprocesses, abort and clock never make it larger |
| RunProtocol.RunsTerminate | pkg/tc39/orchestrator.go:108-190 | no run holds more steps of feeder, workers and collector than were left at its start |
| RunProtocol.NeverStuckIff | pkg/tc39/orchestrator.go:286-327 | in no reachable state before the collector's exit do feeder, workers and collector stand still, and from each they can end the run without a subprocess's help, if and only if every request line fits into an unread pipe |
| RunProtocol.StuckIsBlocked | pkg/tc39/orchestrator.go:286-327 | where they stand still, some worker is writing a line too long for the pipe to a subprocess that lives and does not read |
| RunProtocol.NeverStuck | pkg/tc39/orchestrator.go:335-369 | if every line fits, in every reachable state before the collector's exit some step of feeder, workers or collector is enabled: no deadlock, whatever the subprocesses do |
| RunProtocol.RunsToItsEnd | pkg/tc39/orchestrator.go:108-190 | if every line fits, feeder, workers and collector alone can bring the run to the collector's exit from every reachable state |
| RunProtocol.BlockedStays | pkg/tc39/orchestrator.go:291-293 | no step of feeder, workers or collector frees a worker blocked in its write |
| RunProtocol.FreedIff | pkg/tc39/orchestrator.go:291-293 | only its own subprocess frees a blocked worker, at whose next step the write goes through, if that is to listen, or fails, if that is to die |
| RunProtocol.RecordsAreHonest | pkg/tc39/worker.go:77-86 | whatever holds of the answers of subprocesses holds of every recorded result, but for timeouts and crashes |
| RunHistory.RecordsAreDecided | pkg/tc39/orchestrator.go:286-369 | in every run a recorded result is decided at exactly one step, of a worker busy with that job: it is what that worker's own subprocess had replied, or a timeout where the worker's patience ran out, or a crash where spawn, marshalling, write or subprocess failed |
| RunHistory.DecidedOnce | pkg/tc39/orchestrator.go:353-369 | in every run a job's result is decided at one step |
| RunHistory.AnswersAreRecorded | pkg/tc39/orchestrator.go:306-323 | in a run to the collector's exit everything a subprocess replied is recorded, but over a job its worker gave up |
| RunHistory.UndisturbedRecords | pkg/tc39/orchestrator.go:60-190 | a run to the collector's exit in which nothing failed, ran out or was aborted records for every job the one reply a subprocess gave for it |
| RunHistory.NoneOutlives | pkg/tc39/orchestrator.go:338-342 | at the collector's exit every subprocess ever spawned is dead; until then each living one belongs to a worker |
| RunHistory.FailuresAreDeaths | pkg/tc39/orchestrator.go:291-320 | a write or read fails only on a subprocess that died of itself: the pool kills none it goes on using |
| RunHistory.AnyTime | pkg/tc39/worker.go:60-88 | subprocesses can die, the clock go on and the run be aborted at any time |
| RunHistory.DeadIsSilent | pkg/tc39/orchestrator.go:295-321 | a subprocess that died neither listens nor reads nor replies for the rest of the run |
| RunHistory.WaiterMay | pkg/tc39/orchestrator.go:295-327 | at any point of a run a waiting worker can time out, reads an answer iff there is one, and finds the pipe broken iff its subprocess is dead and every answer is read |
| RunHistory.WriterMay | pkg/tc39/orchestrator.go:286-293 | a request fails before its write iff it cannot be put on a line, its write fails iff the subprocess is dead, and it goes through only to a living one |
| RunHistory.LongLinesAreAwaited | pkg/tc39/orchestrator.go:291-293 | in every run a line too long for the pipe goes through only to a subprocess that has turned to its pipe and read none since |
| RunHistory.ReplacedWhenDue | pkg/tc39/orchestrator.go:343-368 | between two spawns of a worker a send failed, or it settled exactly the limit of jobs |
| RunHistory.StampsAreClocks | pkg/tc39/orchestrator.go:353 | the in-flight map holds for each job the clock at which its worker stamped it |
| RunHistory.AbortStopsFeeding | pkg/tc39/orchestrator.go:117-131 | once the run is aborted the feeder may stop, and then nothing more is handed out |
| BuildCachePin.PinKept | pkg/tc39/cachejanitor.go:312-349 | every step of pool, builds and sweep keeps: entries of jobs in flight exist and are no older than their Store, and no job in flight was stored before the sweep's cutoff |
| BuildCachePin.SweepsAreSafe | pkg/tc39/cachejanitor.go:263-326 | in every interleaving no sweep removes a baseline entry or one written by a job still in flight, and until then all of them are there |
| BuildCachePin.LateCutoffIsUnsafe | pkg/tc39/cachejanitor.go:320-325 | a concrete run in which a sweep that reads the clock after looking at the in-flight jobs removes an entry of a job in flight |
| BuildCachePin.SafeIffCutoffFirst | pkg/tc39/cachejanitor.go:319-326 | all runs of all setups are safe if and only if the cutoff is read before the in-flight jobs are looked at |
| SweepHistory.CutoffIsLeast | pkg/tc39/cachejanitor.go:319-326 | in every run a sweep's cutoff is the smaller of the clock when it started and the least stamp of a job it saw in flight |
| SweepHistory.TimesAreWrites | pkg/tc39/cachejanitor.go:286-294 | in every run an entry carries the clock of its last write |
| SweepHistory.DoomedIff | pkg/tc39/cachejanitor.go:275-298 | a sweep that comes to an entry outside the baseline removes it iff it was last written before the sweep started and before the stamp of every job the sweep saw in flight |
| SweepHistory.OnlyDoomedGo | pkg/tc39/cachejanitor.go:286-298 | in every run an entry goes in a step iff a sweep removes it that has found it outside the baseline and older than its cutoff |
| SweepHistory.GoneUntilWritten | pkg/tc39/cachejanitor.go:294-298 | what a sweep removed is gone until a build writes it again |
| SweepHistory.SweepLeaves | pkg/tc39/cachejanitor.go:303-311 | when a sweep ends, every entry outside the baseline was last written no earlier than the sweep's start or than the stamp of some job it saw: with nothing in flight only the baseline and later writes are left |
| SweepAlone.SweepsCanEnd | pkg/tc39/cachejanitor.go:319-341 | from every state a sweep under way can go on to its end by itself, whatever the pool did in between |
| SweepAlone.Walk | pkg/tc39/cachejanitor.go:264-302 | a walk nothing comes between takes exactly the entries it has not come to that are outside the baseline and older than its cutoff |
| SweepAlone.SweepAtOnce | pkg/tc39/cachejanitor.go:319-341 | a sweep nothing comes between takes exactly the entries outside the baseline written before now and before the stamp of every job in flight |
| MaskLiterals.MaskLiterals | pkg/tc39/hoist.go:125-181 | the in-place, index-jumping scan yields what the per-character automaton of code, comments, quotes and escapes yields |
| MaskLiterals.MaskedByte | pkg/tc39/hoist.go:118-124 | each byte is kept or blanked as the automaton's state there says, newlines are always kept; length is preserved |
| MaskLiterals.PlainCodeUnchanged | pkg/tc39/hoist.go:118-124 | text with no quote and no slash is left as it is |
| MaskLiterals.MaskIdempotent | pkg/tc39/hoist.go:125-181 | masking masked text changes nothing |
| MaskLiterals.ScanLineComment | pkg/tc39/hoist.go:138-144 | from a line comment's first byte the scan reaches its newline or the end, all between being blanked by the automaton |
| MaskLiterals.ScanBlockComment | pkg/tc39/hoist.go:145-155 | from a block comment's first byte the scan reaches the byte behind its end, all between being blanked by the automaton |
| MaskLiterals.ScanQuoted | pkg/tc39/hoist.go:156-175 | from an opening quote the scan, escapes stepped over, reaches the closing one or the end, the quotes kept and all between blanked |
| Identifiers.MemberProperty | pkg/tc39/hoist.go:107-116 | true iff the last non-blank byte before the identifier is a dot that is no part of a spread |
| Identifiers.ScanIdents | pkg/tc39/hoist.go:84-102 | the run-skipping scan yields what testing every byte yields |
| Identifiers.OccurrencesExact | pkg/tc39/hoist.go:80-84 | an occurrence is in the list iff an identifier that is no member property starts there, under its whole name |
| Identifiers.OccurrencesIncrease | pkg/tc39/hoist.go:84-102 | occurrences come in the order of their positions |
| ForHeads.ForBindingEnd | pkg/tc39/hoist.go:223-263 | the search that steps over whole identifiers finds what the byte-by-byte search finds |
| ForHeads.BindingEndExact | pkg/tc39/hoist.go:219-263 | it returns an offset iff a whole-word `of` or `in` stands there at depth one, before the head closes, before any `;` at depth one and before any other such word; the binding text is then balanced |
| ForHeads.TokenizePattern | pkg/tc39/hoist.go:302-331 | the lexer loop yields the tokens of the region one after the other |
| ForHeads.TokensAreLexed | pkg/tc39/hoist.go:302-331 | the tokens are the names, punctuators and other bytes of the region in order, without gaps but for blanks, each under the lexeme it spells |
| ForHeads.TokensIncrease | pkg/tc39/hoist.go:302-331 | token positions lie in the region and increase |
| ForHeads.TokenGap | pkg/tc39/hoist.go:302-331 | between a token that may precede a target and the next token there are only blanks |
| ForHeads.IdentTokensExact | pkg/tc39/hoist.go:302-331 | lexing a region cut between identifiers finds exactly the identifiers, under the same names, that lexing from byte zero finds there |
| ForHeads.TargetIsNoMember | pkg/tc39/hoist.go:352-455 | a target of a region is an identifier that is not the property of a member access |
| ForHeads.ScanHead | pkg/tc39/hoist.go:192-214 | going on at the offset the search jumps to misses no for-head |
| ForHeads.ForBindingTargets | pkg/tc39/hoist.go:189-217 | the scan collects exactly the targets of all for-heads, one found by testing every byte behind the region before |
| ForHeads.HeadsAreDisjoint | pkg/tc39/hoist.go:189-217 | the binding regions walked are inside the code, closed by their loop keyword, disjoint, increasing and finite in number |
| ForHeads.DisjointAt | pkg/tc39/hoist.go:212-214 | each region starts behind the end of the one before |
| ForHeads.OffsetsAgree | pkg/tc39/hoist.go:26-44 | every target offset is the start of an identifier the global scan also yields, under the same name and not suppressed as a member property |
| BindingGrammar.DefaultEndSound | pkg/tc39/hoist.go:461-480 | the skip over a default ends behind a bracket-balanced expression without a comma of its own, on a separator or closer, or at the end of the tokens |
| BindingGrammar.DefaultEndComplete | pkg/tc39/hoist.go:461-480 | every such expression before a separator or closer is skipped whole |
| BindingGrammar.ParseSound | pkg/tc39/hoist.go:352-455 | whatever recursive descent accepts is a well-formed forest that spells exactly the tokens consumed |
| BindingGrammar.ParseComplete | pkg/tc39/hoist.go:352-455 | every well-formed forest is accepted, and as itself |
| BindingGrammar.AcceptsExactlyTheGrammar | pkg/tc39/hoist.go:352-455 | on every token sequence, acceptance as a forest holds iff the forest is well-formed and spells the tokens |
| BindingGrammar.AcceptedShape | pkg/tc39/hoist.go:352-455 | in an accepted binding the committed offsets are those of the binding tokens, in order, none inside a default, and brackets outside defaults match kind by kind |
| BindingGrammar.TargetsFollowPunctuation | pkg/tc39/hoist.go:430-444 | every target stands right behind a bracket, a comma, a spread or a colon |
| BindingGrammar.OnePatternIff | pkg/tc39/hoist.go:333-340 | an accepted bracketed binding is one pattern iff its first bracket, counting brackets of every kind, closes on its last token |
| BindingGrammar.FrameBalances | pkg/tc39/hoist.go:394-411 | the rest of an accepted frame, defaults and nested patterns included, takes the bracket count down by one, at its closer |
| EcmaPatterns.PatternIff | pkg/tc39/hoist.go:333-455 | of what is accepted behind one bracket, exactly the forests without the four slips are patterns of ECMA-262 with plain names |
| EcmaPatterns.PatternsAccepted | pkg/tc39/hoist.go:333-455 | every such pattern is accepted, and its targets are the offsets committed |
| EcmaPatterns.AcceptedIsPattern | pkg/tc39/hoist.go:333-455 | a binding accepted whose first bracket closes on its last token is such a pattern iff it has no slip |
| PatternWalk.SkipDefault | pkg/tc39/hoist.go:461-480 | the loop ends at the end of the default expression |
| PatternWalk.WalkToken | pkg/tc39/hoist.go:378-448 | one turn of the loop does to frame stack and offsets what the recursive-descent move does, or stops where none fits |
| PatternWalk.UnwindStep | pkg/tc39/hoist.go:378-448 | that step keeps what recursive descent makes of the rest of the tokens with the frames of the stack still open |
| PatternWalk.CollectPatternTargets | pkg/tc39/hoist.go:352-455 | the explicit-stack walk adds exactly the targets recursive descent commits, nothing unless the whole binding is accepted |
| PatternWalk.CommitsTheForest | pkg/tc39/hoist.go:352-455 | a bracketed binding commits exactly the target leaves of its syntax forest, and nothing if it has none |
| PatternWalk.NothingFromDefaults | pkg/tc39/hoist.go:457-480 | no committed offset lies inside a default expression |
| PatternWalk.SecondPatternAccepted | pkg/tc39/hoist.go:378-419 | `[x][y]` commits both names, against the comment at lines 333-340 |
| Hoist.SplitNames | pkg/tc39/hoist.go:33-44 | the first pass finds the names with a target occurrence and those with another one |
| Hoist.CollectWinners | pkg/tc39/hoist.go:46-57 | the second pass lists the winners in order |
| Hoist.HoistSloppyForBindings | pkg/tc39/hoist.go:26-62 | the declaration emitted is that of the names hoisted from the masked body |
| Hoist.HoistExact | pkg/tc39/hoist.go:13-62 | on the masked body, a name is declared iff it is a for-head target somewhere and every identifier occurrence of it is one; once each; nothing is emitted iff there is no such name |
| Hoist.DeclarationReadsBack | pkg/tc39/hoist.go:58-62 | what is emitted is `var `, the hoisted names with commas between, and `;` with a newline, or nothing if there are none; split at the commas it is the names |
| Hoist.HoistInOrder | pkg/tc39/hoist.go:26-62 | declared names come in the order of their first occurrence |
| BodyLexing.ModesAgree | pkg/tc39/hoist.go:118-124 | on a body whose substitutions, regular expressions and line comments are tame, masking reads every byte as ECMA-262 does, but for substitutions, read as their template, and regular expressions, read as code |
| TextOverlay.AllTargetsSame | pkg/tc39/hoist.go:189-217 | two texts that differ in walled-off stretches only, which hold no `for` and which no head's search enters, have the same heads and targets, none in a stretch |
| PlainHeads.UsesIff | pkg/tc39/hoist.go:80-116 | in code without escapes and private names, and without a decimal point that stands before blanks and a name, the identifiers are those the scan finds, but for letters behind a numeral's digit |
| PlainHeads.OpensIff | pkg/tc39/hoist.go:192-206 | the search for a head's parenthesis finds one iff a parenthesis stands behind the word `for`, blanks, and perhaps the word `await` and blanks, and it finds that one |
| PlainHeads.LoopWordIff | pkg/tc39/hoist.go:219-263 | the search for the loop's word finds it iff it is the first `of` or `in` outside brackets, with no closer and no `;` outside brackets before it |
| PlainHeads.TargetsIff | pkg/tc39/hoist.go:189-217 | where bindings are plain and no `for` stands behind a dot, the scan finds exactly the identifiers and pattern targets that the code's for-heads bind |
| BodyCode.MentionsIff | pkg/tc39/hoist.go:118-124 | on a tame body the masked text holds the identifiers of the code outside substitutions, and besides only what regular expressions spell |
| BodyCode.GuardedTargets | pkg/tc39/hoist.go:189-217 | behind the guard the targets found in the masked text are those of the body's for-heads, none in a regular expression or a template literal |
| BodyCode.GuardedReads | pkg/tc39/hoist.go:13-24 | behind the guard a declared name is read at a byte of the body iff the byte is in a substitution and mentions it |
| BodyCode.GuardedHoist | pkg/tc39/hoist.go:166-175 | behind the guard a declared name is read in the body iff some substitution mentions it |
| BodyCode.GuardedExact | pkg/tc39/hoist.go:13-62 | behind the guard a name is declared iff outside substitutions the body binds it in for-heads, at least once, and mentions it nowhere else, and no letters of a regular expression or numeral spell it |
| OverlookedReads.SubstitutionIsOverlooked | pkg/tc39/hoist.go:166-175 | a body whose template substitution reads the name it declares |
| OverlookedReads.SubstitutionIsGuarded | pkg/tc39/hoist.go:166-175 | that body meets the guard |
| OverlookedReads.QuoteIsOverlooked | pkg/tc39/hoist.go:122-124 | a body that reads the declared name behind a quote in a regular expression |
| OverlookedReads.SpeltHeadIsOverlooked | pkg/tc39/hoist.go:122-124 | a body in which a regular expression spells the head of the binding it declares, which is a read |
| OverlookedReads.MemberTargetIsOverlooked | pkg/tc39/hoist.go:333-340 | a body whose for-head assigns to an element of an array made of the name it declares |
| OverlookedReads.ForCallIsOverlooked | pkg/tc39/hoist.go:189-203 | a body that reads the declared name in the argument of a method named `for` |
| OverlookedReads.CommentIsOverlooked | pkg/tc39/hoist.go:138-144 | a body that reads the declared name behind a comment ended by a carriage return |
| OverlookedReads.EscapeIsOverlooked | pkg/tc39/hoist.go:80-102 | a body that reads the declared name under a Unicode escape |
| OverlookedReads.PointIsOverlooked | pkg/tc39/hoist.go:104-116 | a body that reads the declared name in the line behind a number ending in its decimal point |
| OverlookedReads.KeywordIsDeclared | pkg/tc39/hoist.go:219-263 | a body for which the hoister declares `var` |
| Keys.JobKey | pkg/tc39/cache.go:43-59 | the bytes fed to the hash are the NUL-terminated version, ID, error type and phase, the optional async byte, and the source |
| Keys.TailKey | pkg/tc39/tailcache.go:92-106 | the bytes fed to the hash are the NUL-terminated runtime hash, error type and phase, the optional async byte, and the emitted Go |
| Keys.DecodesFramed | pkg/tc39/cache.go:43-59 | a decoder recovers the NUL-free header fields, the async flag and the unrestricted tail from the framed bytes |
| Keys.JobKeyInjective | pkg/tc39/cache.go:43-59 | two jobs share a key iff version, ID, expected error, phase, async flag and source agree |
| Keys.TailKeyInjective | pkg/tc39/tailcache.go:88-106 | two jobs share a tail key iff emitted Go, runtime hash, expected error, phase and async flag agree |
| Keys.JobKeySeparatesIff | pkg/tc39/cache.go:41-59 | among jobs with the same async flag and source, a key is that of no other version, ID, error type and phase iff these hold no NUL |
| Keys.JobKeyAloneIff | pkg/tc39/cache.go:41-59 | among all jobs and versions a key is that of one only iff the header fields hold no NUL and no NUL before or in the source is followed by a NUL, or by the async byte and a NUL |
| Keys.TailKeyAloneIff | pkg/tc39/tailcache.go:88-106 | the same of tail keys, with the emitted Go for the source |
| Keys.AloneIff | pkg/tc39/cache.go:43-59 | NUL-terminated fields, not just one, are told from all other lists of as many iff none holds a NUL |
| Keys.NulInTypeCollides | pkg/tc39/cache.go:43-59 | with a NUL as error type or as phase two jobs that differ in these share a key, whatever the rest |
| Keys.FramesInjective | pkg/tc39/tailcache.go:60-72 | equal frames come from equal files, if one list holds no NUL and the other holds none or is as long |
| Keys.FilesOfANumberIff | pkg/tc39/tailcache.go:60-72 | files are told from all other lists of as many iff no name and no content holds a NUL |
| Keys.FilesIff | pkg/tc39/tailcache.go:60-72 | and from all other lists iff there is at most one, without a NUL |
| Keys.NulInContentCollides | pkg/tc39/harnessfp.go:55-100 | content with NUL bytes can pass for two files |
| Keys.RuntimePreimage | pkg/tc39/tailcache.go:60-85 | the bytes fed to the hash are the frames of the files, then of go.mod and go.sum |
| Keys.RuntimeInjective | pkg/tc39/tailcache.go:35-86 | equal runtime fingerprints mean equal files, go.mod and go.sum, if one side holds no NUL and the other holds none or has as many files |
| Keys.HarnessPreimage | pkg/tc39/harnessfp.go:55-100 | the bytes fed to the hash are the frames of the embedded Go files, then of the ports |
| Keys.HarnessInjective | pkg/tc39/harnessfp.go:41-103 | under the same condition equal harness fingerprints mean equal Go files and equal ports: the extensions mark where one list ends |
| VerdictCache.Cache.constructor | pkg/tc39/cache.go:110-129 | loading replays the file, the last line of a key winning, undecodable and keyless lines skipped; entries and file then agree |
| VerdictCache.Cache.BeginStream | pkg/tc39/cache.go:137-148 | opening for append creates a missing file and keeps what the file denotes |
| VerdictCache.Cache.Get | pkg/tc39/cache.go:167-173 | a hit is the recorded status and error under the asking job's ID |
| VerdictCache.Cache.Put | pkg/tc39/cache.go:176-195 | the entries stay as they are iff the key is known or the status is `timeout` or `crash`; else one entry and, when streaming, its line are added, and the file goes on denoting the entries exactly when the key is not empty and the file ended in a newline |
| VerdictCache.Cache.Encode | pkg/tc39/cache.go:210-229 | the temporary, once whole, holds one line for each entry and denotes just those |
| VerdictCache.Cache.Save | pkg/tc39/cache.go:200-231 | a stop before the rename leaves the file alone; a completed rewrite has one line per entry; either way the denoted map is what it was |
| VerdictCache.AppendExtendsIff | pkg/tc39/cache.go:186-194 | appending an entry under a new key extends the denoted map by it iff the key is not empty and the file ends in a newline |
| VerdictCache.DenoteKeys | pkg/tc39/cache.go:110-129 | the keys of the denoted map are exactly the keys of the file's lines |
| CacheFile.StreamRefines | pkg/tc39/cache.go:131-195 | after any number of recordings the file loads as exactly the entries, its new lines repeating no key and holding no timeout or crash |
| CacheFile.FoundAgainIff | pkg/tc39/cache.go:176-195 | while a run streams, the next load finds a new recording iff the file ended in a newline or another new one came before it |
| CacheFile.LeavesFine | pkg/tc39/cache.go:176-231 | however a run ends, between two writes, within one or behind a Save, what held of every entry it loaded and recorded holds of every entry on the file |
| CacheFile.HeldStays | pkg/tc39/cache.go:131-231 | a key on a whole line stays on a whole line, however the next run ends |
| VerdictCache.TornFileLosesEntry | pkg/tc39/cache.go:137-148 | appending behind a line that lacks its newline loses both entries on disk |
| Aot.JudgeRun | pkg/tc39/aot.go:218-262 | the judgement follows the rules: timeout first, then negative, failed exit, missing completion line, pass |
| Aot.ExecuteAOT | pkg/tc39/aot.go:60-158 | the outcome is the recorded one on a hit, the failed build if that was cut off, the uncached verdict otherwise, and it carries the tail key iff Go was emitted |
| Aot.ExecutesPlain | pkg/tc39/aot.go:133-158 | with a sound tail cache or none, and no build cut off, it is the uncached verdict either way |
| Aot.TailStaysSoundIff | pkg/tc39/tailcache.go:20-28 | recording an outcome keeps the tail cache sound, for every job that shares the key, iff it is what building and judging say |
| Aot.CutOffIsRecorded | pkg/tc39/aot.go:175-213 | a build cut off by its deadline is recorded as a failure, and leaves the tail cache sound iff the program fails to build in just that way anyway |
| Aot.StatusesMean | pkg/tc39/aot.go:43-52 | a job passes iff its binary behaved as demanded or a demanded early error came; fails iff emitted Go did not build or its binary misbehaved in time; is handed back iff declined; times out iff its binary overran |
| Aot.ExecutesMeans | pkg/tc39/aot.go:136-170 | a job that comes to emitted Go, with a tail cache in use, carries its key; it is a replay if the cache holds the key, else a failed build if cut off; any other job has its plain verdict and no key |
| Aot.CrashesMean | pkg/tc39/aot.go:61-72 | a job crashes iff staging or the compiler fails, with their error |
| Aot.ErrorsMean | pkg/tc39/aot.go:110-170 | the errors of handbacks, failed builds, passes and timeouts |
| Aot.FailuresSay | pkg/tc39/aot.go:218-262 | the error of a run that fails says how it missed what the test demands |
| Strings.FirstLineIs | pkg/tc39/worker.go:90-98 | the first line is the text up to its first newline, 300 bytes of it at most |
| Strings.DiagLineIs | pkg/tc39/worker.go:104-115 | the diagnostic line is the first that names a Go location, trimmed and capped, else the first line |
| Resume.Plan | pkg/tc39/orchestrator.go:85-100 | hits go to the results under their jobs' IDs, every job's key is noted, and exactly the misses are to do, in order |
| Resume.TodoInOrder | pkg/tc39/orchestrator.go:85-100 | what is to do comes in the order of the jobs |
| Resume.StaysSoundIff | pkg/tc39/cache.go:176-195 | recording a cacheable result under a new key leaves the results cache sound iff it is what executing the job under that version says |
| Resume.RunKeepsSound | pkg/tc39/orchestrator.go:169-182 | wherever a run stops, every entry it leaves says what executing the job behind its key says |
| Resume.KilledRunReloads | pkg/tc39/cache.go:131-136 | killed between two recordings, a run leaves a file that the next one loads as exactly the entries it had |
| Resume.LeavesSound | pkg/tc39/cache.go:176-231 | killed between recordings, killed while writing a line, or saved: no line a run leaves says anything wrong |
| Resume.ChainSound | pkg/tc39/cache.go:131-231 | the same of the file any chain of such runs leaves |
| Resume.ResumedIsRight | pkg/tc39/cache.go:14-19 | after any chain of runs, aborted, killed or saved, a run that completes returns for each of its jobs the verdict of executing it |
| Resume.ResumedEqualsPlain | pkg/tc39/cache.go:14-19 | and that is the verdict one completed run without a cache, under the same version, returns for it |
| Resume.RunsAgainIff | pkg/tc39/cache.go:131-136 | the job behind a result, neither a timeout nor a crash, that reached the cache of a run without a Save is handed out again iff the file lacked its last newline and this was the first such result |
| Resume.NothingRunsAgainIff | pkg/tc39/cache.go:33-37 | of a run on a file, no job whose result, neither a timeout nor a crash, reached the cache is ever handed out again under that version, however that run and all later ones end, iff the file ends in a newline |
| Resume.NeverRunsAgain | pkg/tc39/cache.go:33-37 | but for that first result behind a torn line, a job whose result, neither a timeout nor a crash, reached the cache is never handed out again, however that run and all later ones end |
| Resume.TornRunLoses | pkg/tc39/cache.go:137-148 | for every file without its last newline, a run whose recorded job is handed out again |
| Resume.CompletedReturns | pkg/tc39/orchestrator.go:77-190 | a run that completes on a sound cache returns for every job, hit or executed, the verdict of executing it |
| TailRuns.ReplyIsPlain | pkg/tc39/worker.go:60-86 | an answer of ExecuteAOT on whatever the tail file held when the worker loaded it, lines being written included, is the plain verdict of its job |
| TailRuns.TailRunIsHonest | pkg/tc39/orchestrator.go:169-182 | in a run on a true tail file every recorded result, replayed or not, is its job's plain verdict, or the machine's fault |
| TailRuns.TailChainIsTrue | pkg/tc39/tailcache.go:12-28 | in every chain of runs that share a tail file, of whatever versions and runtimes and however ended, every file says only what building and judging say, and every recorded result is the plain verdict, or the machine's fault |
| TailRuns.TailIsReplayed | pkg/tc39/orchestrator.go:173-175 | a run on a tail file that ends in a newline leaves there every result it recorded with a tail key, but for timeouts and crashes, however it ends, and every later run of the chain loads it |
| TailRuns.TailRunHappened | pkg/tc39/orchestrator.go:77-190 | such a run is one in which, with the plain verdicts for a judge, every subprocess answers right, as the results cache wants it |
| TailRuns.CutOffReachesResults | pkg/tc39/aot.go:175-213 | a build cut off by its deadline is cacheable, and recording it leaves the results cache sound iff the program fails to build in just that way anyway |
| PropertyHelper.IsSameValue | harness/propertyHelper.ts:148-153 | true iff the values are the same, NaN being itself and the zeros different (section 7.2 of ECMA-262) |
| PropertyHelper.OrdinaryObject.IsConfigurable | harness/propertyHelper.ts:119-128 | the answer is the attribute, and the property is gone iff it is true |
| PropertyHelper.OrdinaryObject.IsEnumerable | harness/propertyHelper.ts:130-146 | the answer is the attribute of an own property, found among the names a for-in loop visits |
| PropertyHelper.OrdinaryObject.IsWritable | harness/propertyHelper.ts:155-190 | looking at the property it writes, the answer is the attribute for every old value, the probe value included, and the properties are as before; an explicit value equal to the old one also gets a yes; looking at another one, the answer and the state left are given exactly |
| PropertyHelper.OrdinaryObject.VerifyProperty | harness/propertyHelper.ts:26-117 | it returns iff every flag present and not undefined is the real one and a value is the same value, but for a define that cannot restore; with restore the properties are the initial ones, without it a probed configurable one is gone |
| PropertyHelper.DescribesMeans | harness/propertyHelper.ts:60-104 | a descriptor fits iff it has no other field than the six, its value, if there, is the property's, and each flag there and not undefined is the attribute |
| PropertyHelper.ProbeIs | harness/propertyHelper.ts:155-167 | the probe written without an explicit value, or with a false one, and that it is not the present value unless one was given |
| PropertyHelper.FalsyAre | harness/propertyHelper.ts:159 | the values that count as false |
| PropertyHelper.RestoreThrows | harness/propertyHelper.ts:112-114 | a property described as it is, whose restoring throws |
| PropertyHelper.ReadOnlyCalledWritable | harness/propertyHelper.ts:155-190 | a read-only property called writable, after which strict code throws |
| PropertyHelper.ProbeStays | harness/propertyHelper.ts:176-187 | a probe that answers no and leaves its value behind |
| ModuleGraph.ResolveModuleGraph | pkg/tc39/modulegraph.go:117-156 | the walk ends on every finite store, cyclic or not, stages no name twice, nor the entry, nor a name that leads out of its directory, and on flat specifiers stages exactly the readable modules reachable from the entry, each with its content |
| ModuleGraph.ReadModuleMeans | pkg/tc39/modulegraph.go:187-207 | a module is the file at the path as written if there is one, else its TypeScript sibling for the three JavaScript extensions, else none |
| ModuleGraph.VisitSpec | pkg/tc39/modulegraph.go:132-151 | one specifier keeps the walk's invariant: staged names are visited and distinct, and imports of staged modules are visited or wait |
| ModuleGraph.ClosedContains | pkg/tc39/modulegraph.go:109-156 | a set of names closed under the imports of its readable members contains all that is reachable |
| ModuleGraph.AllStaged | pkg/tc39/modulegraph.go:117-156 | with the queue empty, whatever is reachable and readable is staged |
| ModuleGraph.SiblingsAreFlat | pkg/tc39/modulegraph.go:84-107 | single-level `.js` siblings are flat: one staged name means one file, in the entry's directory |
| ModuleGraph.StageJob | pkg/tc39/modulegraph.go:165-184 | on distinct names other than the entry's, every file ends up with its own content and none is written twice |
| BuildCache.EntriesAre | pkg/tc39/cachejanitor.go:149-173 | an entry is a file right in a directory whose name is two lower-case hexadecimal digits |
| BuildCache.Directory.Snapshot | pkg/tc39/cachejanitor.go:98-127 | the walk lists every cache entry once, oldest first, with their total size |
| BuildCache.Directory.Measure | pkg/tc39/cachejanitor.go:51-79 | the size of all cache entries together; it is one measurement of the step-by-step janitor |
| BuildCache.Directory.Trim | pkg/tc39/cachejanitor.go:88-142 | of the snapshot, oldest first, a prefix goes, at most the target stays, the amount subtracted never exceeds the total, and without other removals no shorter prefix would do; it is one trim of the step-by-step janitor |
| BuildCache.Directory.Watch | pkg/tc39/cachejanitor.go:194-210 | a tick leaves everything as it is up to the ceiling, and beyond it takes the oldest entries until at most three quarters of it are left |
| BuildCache.Directory.PinToBaseline | pkg/tc39/cachejanitor.go:263-301 | exactly the entries outside the baseline and older than the cutoff go, and their bytes are counted |
| BuildCache.DiskKept | pkg/tc39/cachejanitor.go:185-223 | every write, removal by others, look of a walk and removal of a trim keeps: what is there was left by the last trim's list or written since it began, and what was left is at most the target |
| BuildCache.OverIsTrimmed | pkg/tc39/cachejanitor.go:195-210 | a trim begins iff a walk added up more than the ceiling, and is finished before the janitor rests or measures again |
| BuildCache.FilesAreWrites | pkg/tc39/cachejanitor.go:128-142 | in every run a file is what was last written there until someone else removes it or a trim comes to it, and then gone until written again |
| BuildCache.MeasureHolds | pkg/tc39/cachejanitor.go:195-199 | in every run, when a measurement finds no more than the ceiling, the entries are at most the ceiling and what was written since it began |
| BuildCache.TrimHolds | pkg/tc39/cachejanitor.go:192-210 | from the end of a trim on, the entries are at most its target and what was written since it began |
| BuildCache.TrimsAreRare | pkg/tc39/cachejanitor.go:192-194 | over any run of files, writes, removals and walks, k trims, k at least two, mean that more than k - 1 quarters of the ceiling were written |
| Expectations.LoadExpectations | pkg/tc39/expect.go:20-41 | the loop reads each line as its parse says, later lines winning; a missing file is empty |
| Expectations.WriteExpectations | pkg/tc39/expect.go:44-62 | the text holds the header and a line for each non-passing job, in ascending order of IDs |
| Expectations.SortedIds | pkg/tc39/expect.go:44-52 | the list is ascending and holds exactly the picked IDs |
| Expectations.LessMeans | pkg/tc39/expect.go:51 | the order of IDs is that of the first byte in which they differ, a text before those it starts |
| Expectations.LineReadsBackIff | pkg/tc39/expect.go:29-38 | a line reads back as its status and ID iff the status is not empty, free of spaces, starts with no white space and no `#`, and the ID is not empty and ends in no white space |
| Expectations.RoundTrip | pkg/tc39/expect.go:20-62 | loading the text written yields exactly the non-passing entries, iff each has a status and an ID whose line reads back and that hold no newline |
| Expectations.FreshSnapshotIsClean | pkg/tc39/expect.go:70-93 | a run drifts nowhere from the snapshot written from it |
| Expectations.Diff | pkg/tc39/expect.go:74-93 | the two lists, sorted by ID, hold every drifted job once, the ones that now pass in the second |
| Compose.ComposeCase | pkg/tc39/compose.go:54-117 | the loop's source is directive, ports, hoisted declaration, body and module marker, declined for the host flag first, then for the first include that cannot be read |
| ComposedText.ComposedOfParts | pkg/tc39/compose.go:54-117 | a text composed in a mode other than raw is the strict directive in strict mode, the ports of the include names in order, each with a newline, the hoisted declaration for a sloppy test that is not negative, the body, and the marker in module mode; a raw text is the body |
| ComposedText.HostFlagDeclines | pkg/tc39/compose.go:55-64 | a case is declined over its host flag iff it has it, whatever its includes |
| ComposedText.StrictIffDirective | pkg/tc39/compose.go:66-69 | a composed text starts with the directive iff the mode is strict, unless the first port does |
| ComposedText.NamesAskedFor | pkg/tc39/compose.go:71-75 | the include names are the two of every test, the test's own, and the completion handler iff it is async |
| ComposedText.NamesInOrder | pkg/tc39/compose.go:76-81 | they come in the order of their first mention |
| ComposedText.PortNameIs | pkg/tc39/compose.go:82 | the port of `x.js` is `x.ts` |
| ComposedText.SpliceStops | pkg/tc39/compose.go:77-92 | splicing succeeds iff every port can be read, and stops at a port that is there and cannot be read iff it is the first name that cannot |
| ComposedText.ModesMean | pkg/tc39/discover.go:221-234 | which modes the flags select: raw before module before the strictness flags, sloppy before strict by default |
| ComposedText.FailsIff | pkg/tc39/discover.go:164-186 | the expansion fails iff some execution comes to a port that is there and cannot be read |
| ComposedText.JobsCarry | pkg/tc39/discover.go:139-218 | every job carries ID, path, source, async flag, error type, phase and staged modules of its execution, every handback its reason |
| Compose.SpliceDeclines | pkg/tc39/compose.go:77-92 | splicing stops for want of a port at a name iff it has none and is the first that cannot be read |
| Compose.SpliceConcat | pkg/tc39/compose.go:77-92 | splicing goes name by name, in order: a list is spliced as its parts one after the other |
| Compose.DeclinesIffUnported | pkg/tc39/compose.go:54-92 | a case neither raw nor CanBlockIsFalse is declined for an unported include only over the first audited name without a port, and is iff every port before it can be read |
| Compose.IncludeNamesOf | pkg/tc39/includes.go:87-103 | the loop keeps the first mention of each name |
| Compose.DedupIs | pkg/tc39/includes.go:83-103 | the include names are those asked for, none twice |
| Compose.AuditIncludes | pkg/tc39/includes.go:39-81 | every name some case composes is listed once with its reach, with or without a port, biggest reach first and then by name |
| Compose.ReachIsSum | pkg/tc39/includes.go:44-62 | an audited job count is the number of executions of the cases that name the include, positive iff there is one |
| Compose.ReachIsGatedIff | pkg/tc39/includes.go:22-26 | an audited job count is the number of executions handed back over the include iff it has no port and every execution that names it is neither raw nor CanBlockIsFalse and can read all it splices before |
| Compose.LockedPortComesFirst | pkg/tc39/includes.go:31-38 | a case with an unported include whose expansion stops over a port before that is there and cannot be read |
| Compose.Jobs | pkg/tc39/discover.go:139-218 | cases expand to the outcomes of their executions, in case order |
| Compose.OneOutcomeEach | pkg/tc39/discover.go:134-218 | every execution yields exactly one job or one handback, in case order within each list |
| Compose.SlotIdInjective | pkg/tc39/discover.go:164-176 | a job ID determines path and mode, whatever the path |
| Compose.JobIdsDistinct | pkg/tc39/discover.go:139-218 | cases with distinct paths expand to jobs with distinct IDs |

## Left out

- The bento compiler, the TypeScript checker, `go build` and the test binaries: they are functions of an
  abstract toolchain (`Aot.Toolchain`). A panic anywhere else in `ExecuteAOT`, and errors making the scratch
  directory, have the same outcome as one in staging or compiling.
- JSON, YAML and Go's regexp engine: a cache line is an entry or does not decode; `relativeSpecifiers`,
  `filepath.Clean`, `Join` and `Dir` are given functions. The 16 MB line limit, invalid UTF-8, a last line
  of blanks only, and I/O errors of the caches are not modelled.
- SHA-256 itself and the truncation of fingerprints to a few hex digits.
- Whether a slash starts a regular expression is for the grammar of ECMA-262 to say and given to `BodyLexing`.
- What `BodyNames` does not tell apart: white space and letters outside ASCII, comments that start with `<!--`
  or `-->` (section B.1.1 of ECMA-262) and a `#!` line, which the guard of `BodyCode` shuts out; a binding that
  is the word `async`, `await`, `let` or `yield` alone, which counts as none, and is shut out too; a target
  in parentheses, which counts as a read. Keys of objects, labels and keywords count as mentions of a name.
  What `eval` or `Function` makes of a string is not lexed.
- Real time and coarse file times; a build orphaned when its worker is killed is outside the in-flight map
  and outside the pin theorem.
- The error texts of crash results in the run protocol, and the progress lines, `watchStuck` and
  `stillRunning`: printing only.
- `MaskLiterals.MaskLiterals`, `ForHeads.TokenizePattern` and the other scanners of the hoister: a byte is a
  character, and the text of a token other than an identifier is reduced to what the walk looks at.
- `RunProtocol.NeverStuckIff`: a line is written whole or not at all; what a blocked write has already put into
  the pipe is not modelled.
- `PatternWalk.CollectPatternTargets`: the output map is a set passed in and out, not updated in place.
- `ModuleGraph.ResolveModuleGraph`: the walk's variables are one value passed to the loop bodies, and a work
  item holds its one source; exactness is stated for flat specifiers, where one name means one file.
- `Compose.Jobs`: the error group's concurrency, since each case writes its own slot; staging of modules is a
  given function; the text of an error that stops the expansion.
- `BuildCache.Directory.Trim`: removals by others fall between the snapshot and the removal loop, where
  `BuildCache.DiskKept` has them and writes at any step; I/O errors are not modelled; entries of equal age keep
  one fixed order where Go's sort may pick any.
- `BuildCache.Directory.PinToBaseline`: one sweep on its own; `BuildCachePin` interleaves it with the pool.
- `PropertyHelper.OrdinaryObject.VerifyProperty`: messages are counted, not spelled; a descriptor is its own
  fields. Inherited properties, accessors, arrays, proxies, symbols and the order of own keys are left out.
- `Expectations.RoundTrip`: white space is the ASCII kind and the two Latin-1 ones, not all of Unicode's.
- `LowerOnly`, `Quarantine`, `Select`, `PruneResultsCaches`, `pruneStagedRoots`, `SnapshotCacheEntries`,
  `Summarize` and the report printers: filters, counters and output.
- `WarmDeps`, `PrepareModuleRoot`, disk and memory probes, `CapWorkers`, flag parsing, signals and the shell
  scripts: system calls.
- The other ports under `harness/`: mostly messages and host stand-ins.
