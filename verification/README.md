# Verification of claw_engine

A Dafny model of the parts of claw_engine that carry state or branch heavily, with proofs of what
they guarantee for every input, every run, or every interleaving. `dafny verify dfyconfig.toml`
checks all of it.

## What is modelled

**CLI streams and turns.** `Runtime`, `LineStreams`, `CodexBackend`, `ClaudeBackend`, `Tracing`,
`Engine`. A CLI's output is a sequence of lines (blank, not JSON, or any JSON value) followed by an
ending (exit code, read timeout, OS error, any other exception), or a failed spawn. Each backend's
`run` is a method whose loops yield events. `StreamTheorems.dfy` says exactly when a run completes,
with which result, and that the only terminal event is the last one, `StreamContents.dfy` what the
events, results and errors carry. `Engine.RunTurn` folds a stream into a result while driving a trace
span; `CliTurns` puts the two together.

**Sessions.** `Sessions`, `SessionTable`, `MemoryStore`, `RowStore`, `StoreAgreement`, `StoreLaws`.
The memory store is two maps and a set, the SQL stores a table of rows with its UNIQUE constraints.
They are related call by call. `AlchemyStore` is `get_or_create` of the SQLAlchemy store as one client runs
it, with other clients' commits between its transactions. `SessionProtocol` is the whole system: any
number of clients run `ConversationService.handle`, one step per transaction or backend turn,
interleaved freely, with crashes anywhere. `AtomicStore` is the atomic map it refines.
`SessionRounds` says when its round counters are exact, `SessionMessages` when a message is answered.
`LazyInit` is the engine creation behind a double-checked lock, one step per access to a shared field.

**The conversation loop.** `Conversation`, `ConversationHistory`, `Workspace`, `Gateway`, `Runner`,
`RunnerHistory`: one call after another on the memory store, down to the event stream of each turn.
The history theorems say what any sequence of successes and failures adds up to. The two-run theorems
say that traces do not depend on the values of secrets.

**Skills.** `Sorting`, `Disk`, `Copying`, `Provisioner`, `ProvisionLinks`, `ProvisionTheorems`,
`ProvisionHistory`, `ProvisionCuts`. The disk has files, directories and symbolic links at any depth,
addressed by segment paths; a skill is the list of entries in the order `copytree` comes to them, and
each entry is resolved, written, skipped or failed as `os.makedirs` and `copy2` do; a call raises after
a failed copy. The manifest may hold anything. `ProvisionLinks` says what a call may touch whatever the
links; the other theorems are about names without links: one call, completed histories, and histories
cut short anywhere.

**Workflows.** `WorkflowRuns`, `WorkflowSystem`, `WorkflowRecords`, `WorkflowService`,
`WorkflowForest`. The system has submitters, reruns, readers and one worker per run on a shared store,
one step per store access, and an executor that can be shut down, after which new runs stay as
created; the service and the tool bridge are the sequential code with the inline executor.

**Secret paths.** `Formatting`, `PathSegments`, `SecretPath`: format-string parsing with brace
escapes, conversions and string format specs, the sentinel check, path composition, and the
dot-segment removal of section 5.2.4 of RFC 3986.

`Runs` (runs of a transition system) and `Sequences` (subsequences by a condition) are shared.

## How to read the model

- Python objects that come from parsed JSON are values of `Runtime.Json`; None is `Null` and the
  booleans are the numbers 0 and 1, which Python's booleans equal.
- A transition system is a function `Step(state, action)`; an action that is not enabled changes
  nothing, so a run is any sequence of actions. `drawn` is the supply of uuids. What steps read of
  the history fields (`log`, `turns`, `saved`, `handed`, `order`, `first`, `leaked`) only goes into
  the history they extend.
- Uuids, clocks, event streams, capabilities, handler behaviour and other clients' calls are
  parameters. Uuids are drawn once.
- Error texts are constructors of `Reason`, `SpanError` and the result types.

## Where the code and its documentation differ

`docs/ARCHITECTURE.md` says subprocess failures are mapped to error events. The spawn call stands
before the `try` (`claw_engine/adapters/backends/codex/backend.py:43`,
`claw_engine/adapters/backends/claude/backend.py:43`), so a failed spawn escapes the generator, as do
a JSON line that is not an object and a `usage` whose conversion raises. The model follows the code:
`CodexClosed` and `ClaudeClosed` give the exact condition under which an exception escapes, and prove
the event contract in all other cases; `CodexEscapeWitness` and `ClaudeEscapeWitness` are such runs.

Round counters are meant to count turns, but a save writes back what its client read. So an increment
is lost when another client's save comes between (`StaleSaveLosesRound` is such a run).
`RoundsAreSavesIff` gives the exact condition for a counter to equal the turns saved, and
`SerialRoundsExact` one that callers can keep: no call on a key while another is open.

A message is marked only after its turn is saved. So a crash in between, or a second call that is
checked before the mark, lets it be answered again (`CrashAnswersTwice`). `RefusedForGood` and
`UnmarkedTakesTurn` say exactly which calls are refused, `AnsweredAtMostOnce` that one call after the
other, up to its mark, answers a message once at most.

The docstring of `_validate_path_template` says that the placeholder's value is all that is left to
check at run time. Its format spec is not looked at: `{workspace_id:.2}` is accepted, shows the id
`..x` as `..`, and `ab1` and `ab2` alike (`TruncationWitness`). `GuaranteedIff` says exactly which
templates keep what the check is for.

The store contract asks callers to save only sessions obtained from the store. `SaveAgreesIff` and
`MarkAgreesIff` give the exact conditions under which the stores stay in agreement.

The comments of `claw_engine/engine/skills/provisioner.py` promise that directories not in the manifest
are never touched. Removals keep that whatever the links (`RemovalContained`). Copies follow links, also
below a skill's own directory (`NestedLinkEscapes`), so that `CopiesStayInsideIff` needs every path they
write to resolve inside the destination. A directory that became a file in the source stays, and the
file goes into it (`FolderBecomesFile`); `CopyMergesIff` says when a copy is a merge. What a call copied
before it was cut short is in no manifest; `StrandedIff` says which names stay behind.

`_ensure_engine` disposes of an engine whose build failed with a SQLAlchemyError, and of no other;
`InitIsSafe` and `LeakedIff` say exactly which engines are left over.

## Model

| member | source | states |
|---|---|---|
| StreamContract.SuiteAcceptsIffValid | claw_engine/engine/runtime/contract_suite.py:8-20 | counting one terminal event and finding it last, with matching payload, is the same as: no terminal before the last event |
| CodexBackend.ReadLine | claw_engine/adapters/backends/codex/backend.py:47-90 | one loop iteration: what it yields, whether it stops, and the two loop variables |
| CodexBackend.ReadItemOf | claw_engine/adapters/backends/codex/backend.py:65-90 | what a completed item yields, whether it stops the run, and the message text kept |
| CodexBackend.Run | claw_engine/adapters/backends/codex/backend.py:41-106 | the generator's whole output is the closed form: events of the lines before the first stop, then one verdict |
| CodexTheorems.CodexCompletesIff | claw_engine/adapters/backends/codex/backend.py:44-106 | completes iff every line is well formed and the exit code is 0; result carries the last started thread, else the resume id, and the last message text |
| CodexTheorems.CodexClosed | claw_engine/adapters/backends/codex/backend.py:43-106 | exactly one terminal event, at the end, or an escaping exception and none; when exactly an exception escapes |
| CodexTheorems.CodexEarliestFailure | claw_engine/adapters/backends/codex/backend.py:50-89 | the first ill-formed line fixes the whole stream, whatever follows and however the process ends |
| CodexTheorems.CodexErrorKind | claw_engine/adapters/backends/codex/backend.py:50-106 | every run that neither completes nor raises ends in an error: protocol if a line is ill-formed, else timeout on a read timeout, else crash; only the timeout is retriable |
| CodexTheorems.CodexEscapeWitness | claw_engine/adapters/backends/codex/backend.py:56 | a line that is a JSON array lets an exception escape, with no event |
| CodexContents.CodexStreamSays | claw_engine/adapters/backends/codex/backend.py:57-89 | the events of a run carry, in order, the thread ids of its thread.started lines, the texts of its agent_message items, and name, input and output of its tool_call items, up to the first ill-formed line; one terminal comes after |
| CodexContents.CodexResultSays | claw_engine/adapters/backends/codex/backend.py:44-106 | a completing run's result has the thread id of the last thread.started line, else the resume id, and the text of the last agent_message item, else the empty text; no usage |
| CodexContents.CodexErrorNames | claw_engine/adapters/backends/codex/backend.py:50-100 | the error of a run that neither completes nor raises says what its first ill-formed line lacks, else how the process ended |
| ClaudeBackend.EmitBlock | claw_engine/adapters/backends/claude/backend.py:70-91 | what one content block yields, or why it stops the run |
| ClaudeBackend.EmitBlocks | claw_engine/adapters/backends/claude/backend.py:64-91 | the inner loop: the events of the blocks before the first bad one, and the text kept |
| ClaudeBackend.ReadEvent | claw_engine/adapters/backends/claude/backend.py:55-92 | what a parsed object yields, whether it stops the run, and the two loop variables |
| ClaudeBackend.ReadLine | claw_engine/adapters/backends/claude/backend.py:47-92 | one loop iteration up to where a result line takes over |
| ClaudeBackend.Finish | claw_engine/adapters/backends/claude/backend.py:92-121 | the verdict on a result line given the session and text known so far |
| ClaudeBackend.Run | claw_engine/adapters/backends/claude/backend.py:41-134 | the generator's whole output is the closed form, including events before a fault midway through a message |
| ClaudeTheorems.SeenMeans | claw_engine/adapters/backends/claude/backend.py:44-81 | the loop's session variable is the last init id, its text variable the last assistant text block |
| ClaudeTheorems.ClaudeCompletesIff | claw_engine/adapters/backends/claude/backend.py:44-134 | completes iff a first result line exists, all before it is well formed, it is not an error, has a result, and its session id matches the last init id or the resume id |
| ClaudeTheorems.ClaudeResult | claw_engine/adapters/backends/claude/backend.py:107-121 | the result: the report's session id, its text or else the last text block; each token count is 0 if the usage or its own field is absent or falsy, else that field converted |
| ClaudeTheorems.ClaudeIgnoresTail | claw_engine/adapters/backends/claude/backend.py:47-134 | lines after the one that stops the run, and the ending, are irrelevant |
| ClaudeTheorems.ClaudeClosed | claw_engine/adapters/backends/claude/backend.py:43-134 | exactly one terminal event, at the end, or an escaping exception and none; when exactly an exception escapes |
| ClaudeTheorems.ClaudeErrorKind | claw_engine/adapters/backends/claude/backend.py:50-134 | every run that neither completes nor raises ends in an error whose kind is fixed by the line that stops it, else by the ending; only the timeout is retriable |
| ClaudeTheorems.ClaudeEscapeWitness | claw_engine/adapters/backends/claude/backend.py:109-118 | a line that is an array, and a report whose usage is an array, let an exception escape |
| ClaudeContents.ClaudeStreamSays | claw_engine/adapters/backends/claude/backend.py:56-91 | the events of a run carry, in order, the session ids of its init lines, the texts of its text blocks, and name and input of its tool_use blocks, up to the first bad block or line |
| ClaudeContents.ClaudeErrorNames | claw_engine/adapters/backends/claude/backend.py:50-134 | the error of a run that neither completes nor raises says what the line that stops it, or its first bad block, lacks or reports, else how the process ended |
| Tracing.MemorySpan.RecordTool | claw_engine/engine/observability/memory.py:24-25 | appends one tool and changes nothing else of the record |
| Tracing.MemorySpan.Finish | claw_engine/engine/observability/memory.py:27-32 | the first finish sets output and error; later ones change nothing |
| Tracing.MemorySpan.Exit | claw_engine/engine/observability/memory.py:37-40 | leaving the block closes a span that is still open, and only such a span |
| Tracing.MemoryTracer.StartTrace | claw_engine/engine/observability/memory.py:49-59 | appends one fresh, open record |
| Engine.Consume | claw_engine/engine/orchestration/engine.py:54-64 | one event past the gate: how the loop leaves, if it does, and what the record holds then |
| Engine.Drive | claw_engine/engine/orchestration/engine.py:48-69 | outcome, consumed events and final record are those of the declarative fold; the span finishes once |
| Engine.RunTurn | claw_engine/engine/orchestration/engine.py:23-69 | an unregistered backend leaves no trace and gets no request; otherwise the request goes out with the resume handle gated, and one new trace record is finished, with the given dimensions, input and metadata, and what the declarative fold says |
| Engine.TurnFacts | claw_engine/engine/orchestration/engine.py:48-69 | on any stream: the ungated events are the stream's own, in order, all but the gated deltas; the consumed ones are a prefix of them, cut only where the loop stops; the turn returns the last completion's result exactly if nothing stops it, and leaves as the stopping event or the ending says otherwise; the span's output is the returned final text and no error, else no output and the error of that way out; its tools are those of the consumed tool events, in order |
| Engine.TurnOnClosedStream | claw_engine/engine/orchestration/engine.py:50-69 | on a contract-keeping stream the turn returns iff the stream completes, else fails with the stream's error; the missing-terminal error is unreachable |
| Engine.DeltasDoNotMatter | claw_engine/engine/orchestration/engine.py:51-53 | without streaming, removing all deltas from the stream changes nothing |
| Engine.CallbackOnlyAdds | claw_engine/engine/orchestration/engine.py:54-55 | a callback either raises or leaves the turn as it is without it |
| CliTurns.CodexTurn | claw_engine/engine/orchestration/engine.py:50-67 | on any codex output the missing-terminal error and the assertions are unreachable; when exactly the turn returns |
| CliTurns.ClaudeTurn | claw_engine/engine/orchestration/engine.py:50-67 | the same on any claude output |
| Sessions.DescendKeepsIdentity | claw_engine/engine/persistence/contracts.py:19-26 | a run of turns keeps id, key, backend and limit, adds one round each, and leaves the last turn's handle and time |
| MemoryStore.MemorySessionStore.GetOrCreate | claw_engine/engine/persistence/memory_store.py:13-26 | returns the indexed session or adds a new one to both indexes |
| MemoryStore.MemorySessionStore.Save | claw_engine/engine/persistence/memory_store.py:28-30 | replaces the whole session and re-indexes its key |
| MemoryStore.MemorySessionStore.IsProcessed | claw_engine/engine/persistence/memory_store.py:32-33 | membership in the processed set |
| MemoryStore.MemorySessionStore.MarkProcessed | claw_engine/engine/persistence/memory_store.py:35-36 | adds one pair to the processed set |
| RowStore.SqliteSessionStore.GetOrCreate | claw_engine/engine/persistence/sqlite_store.py:49-89 | returns the selected row or inserts one; with a fresh uuid the insert cannot violate a constraint |
| RowStore.SqliteSessionStore.Save | claw_engine/engine/persistence/sqlite_store.py:91-103 | updates four columns of the rows with the session's id, and only those |
| RowStore.SqliteSessionStore.IsProcessed | claw_engine/engine/persistence/sqlite_store.py:105-112 | the row of processed messages exists |
| RowStore.SqliteSessionStore.MarkProcessed | claw_engine/engine/persistence/sqlite_store.py:114-119 | inserts or ignores |
| SessionTable.InsertKeepsUnique | claw_engine/adapters/persistence/sqlalchemy/schema.py:89-94 | an insert that commits keeps one row per id and per natural key |
| SessionTable.UpdateKeepsUnique | claw_engine/engine/persistence/sqlite_store.py:91-103 | so does an update |
| StoreAgreement.StoresAgree | claw_engine/engine/persistence/contracts.py:34-39 | bisimulation: inside the contract the memory store and the SQL stores give equal answers at every step, also for stale saves |
| StoreAgreement.StoresAgreeFromStart | claw_engine/engine/persistence/contracts.py:34-39 | the same from empty stores, for every permitted sequence of calls |
| StoreAgreement.StepAgrees | claw_engine/engine/persistence/contracts.py:30-42 | one permitted call gives equal answers and keeps the key index and the id index in agreement with the table |
| StoreAgreement.SaveAgreesIff | claw_engine/engine/persistence/memory_store.py:28-30 | upsert and four-column update agree iff a row with the same id, key and backend exists |
| StoreAgreement.MarkAgreesIff | claw_engine/adapters/persistence/sqlalchemy/store.py:281-310 | marks agree iff the foreign key is not enforced, the session exists, or the mark is already there |
| StoreLaws.MemorySaveThenGet | claw_engine/engine/persistence/memory_store.py:13-30 | after a save, what each key finds in the memory store |
| StoreLaws.MemoryCreateThenGet | claw_engine/engine/persistence/memory_store.py:13-26 | a session created is found again, with its own backend and limit |
| StoreLaws.MemoryMarkThenAsk | claw_engine/engine/persistence/memory_store.py:32-36 | after a mark, what each question for a mark answers |
| StoreLaws.RowSaveThenGet | claw_engine/engine/persistence/sqlite_store.py:49-103 | after a save, what each row's key finds: the four saved columns if the ids agree, else the row as it was |
| StoreLaws.RowCreateThenGet | claw_engine/engine/persistence/sqlite_store.py:49-89 | a row created is found again, with its own backend and limit |
| StoreLaws.RowMarkThenAsk | claw_engine/adapters/persistence/sqlalchemy/store.py:265-310 | after a mark, what each question for a mark answers, the foreign key enforced or not |
| AlchemyStore.SQLAlchemySessionStore.GetOrCreate | claw_engine/adapters/persistence/sqlalchemy/store.py:152-236 | rejects exactly the empty and over-long fields, changing nothing; otherwise, whatever other clients commit between the three transactions, the call is atomic at one of them and never ends in the not-found error |
| AlchemyStore.SQLAlchemySessionStore.Save | claw_engine/adapters/persistence/sqlalchemy/store.py:238-263 | rejects exactly invalid ids and resume handles; otherwise updates four columns of an existing row, silently nothing for an unknown id |
| AlchemyStore.SQLAlchemySessionStore.IsProcessed | claw_engine/adapters/persistence/sqlalchemy/store.py:265-279 | whether the mark exists, unless a field is invalid |
| AlchemyStore.SQLAlchemySessionStore.MarkProcessed | claw_engine/adapters/persistence/sqlalchemy/store.py:281-310 | inserts unless a field is invalid; a duplicate or a missing session is swallowed |
| AlchemyStore.CommittedKeepsTable | claw_engine/adapters/persistence/sqlalchemy/store.py:187-236 | other clients' calls never remove a natural key nor use a uuid drawn elsewhere |
| AlchemyStore.FieldsFitColumns | claw_engine/adapters/persistence/sqlalchemy/schema.py:40-114 | the validated arguments are exactly those that are not empty and fit their columns |
| AtomicStore.Extend | claw_engine/adapters/persistence/sqlalchemy/store.py:187-263 | a legal history extended by a call with the atomic answer is legal and leads to the new table |
| SessionProtocol.StepKeeps | claw_engine/engine/orchestration/conversation.py:37-62 | every step of every client keeps the table, client, history and refinement invariants |
| SessionProtocol.Linearizable | claw_engine/adapters/persistence/sqlalchemy/store.py:187-236 | every interleaving with crashes is a legal history of the atomic store in real-time order, with one row per key, and the not-found error is unreachable |
| SessionProtocol.GetGoesOn | claw_engine/adapters/persistence/sqlalchemy/store.py:187-236 | in any reachable state: the look-up goes on with the key's row, the insert adds one exactly if there still is none, and the second look-up always finds one |
| SessionProtocol.CallsAgree | claw_engine/adapters/persistence/sqlalchemy/store.py:187-236 | all completed calls on a key agree on session id, backend and limit |
| SessionProtocol.RoundsBounded | claw_engine/engine/orchestration/conversation.py:37-62 | no row exceeds its limit or its completed turns; every processed message had a turn saved first |
| SessionProtocol.IdentityForever | claw_engine/engine/orchestration/conversation.py:37-62 | rows never vanish or change identity, and the processed set only grows, from any point of any run |
| SessionProtocol.StaleSaveLosesRound | claw_engine/engine/orchestration/conversation.py:59 | two clients that read the same round leave one round after two turns |
| SessionRounds.RoundsAreSavesIff | claw_engine/engine/orchestration/conversation.py:37-59 | in every run a row's rounds never exceed the saves of its session, and equal them iff no save was ever committed between another client's read of the session and that client's save |
| SessionRounds.SaveAddsRoundIff | claw_engine/adapters/persistence/sqlalchemy/store.py:238-263 | from any reachable state a save adds exactly one round iff the row still has the rounds its client read |
| SessionRounds.SerialRoundsExact | claw_engine/engine/orchestration/conversation.py:37-59 | if calls on a key are only made while no other call on it is open, its rounds are exactly the turns saved, whatever happens under other keys |
| SessionMessages.RefusedForGood | claw_engine/engine/orchestration/conversation.py:41-44 | in any run, a call checked when its message is marked or its rounds are used up completes no turn and changes no table until its client makes another call |
| SessionMessages.UnmarkedTakesTurn | claw_engine/engine/orchestration/conversation.py:41-52 | in any run, a call checked when its message is not marked and its rounds are not used up goes on to a turn, whatever others do |
| SessionMessages.FailedForGood | claw_engine/engine/orchestration/conversation.py:52-57 | a call whose turn fails changes no table, and completes no turn, until its client makes another call |
| SessionMessages.TurnIsSaved | claw_engine/engine/orchestration/conversation.py:52-59 | a completed turn is saved, whatever others do: one round more than was read, with that turn's handle and time, identity kept |
| SessionMessages.SaveIsMarked | claw_engine/engine/orchestration/conversation.py:59-61 | a client that saves a turn of a message and goes on marks that message |
| SessionMessages.SavedWasUnmarked | claw_engine/engine/orchestration/conversation.py:41-61 | over every interleaving, a turn is saved for a message only by a client that checked it when it was not marked |
| SessionMessages.AnsweredAtMostOnce | claw_engine/engine/orchestration/conversation.py:41-61 | if calls on a key run one by one up to their marks, no two turns are saved for one message of it |
| SessionMessages.CrashAnswersTwice | claw_engine/engine/orchestration/conversation.py:59-61 | a crash between save and mark lets the next call answer the message again |
| LazyInit.StepKeeps | claw_engine/adapters/persistence/sqlalchemy/store.py:98-148 | every step keeps the lock, publication and accounting invariants, and a published engine |
| LazyInit.InitIsSafe | claw_engine/adapters/persistence/sqlalchemy/store.py:98-148 | one thread in the lock; whoever has an engine has the published one with both tables of its build; with the lock free, the engines neither published nor disposed are exactly the leaked ones |
| LazyInit.LeakedIff | claw_engine/adapters/persistence/sqlalchemy/store.py:109-132 | an engine is leaked iff at some step its build failed with something other than a SQLAlchemyError |
| LazyInit.EngineIsForever | claw_engine/adapters/persistence/sqlalchemy/store.py:134-139 | once published the engine never changes |
| LazyInit.Retryable | claw_engine/adapters/persistence/sqlalchemy/store.py:107-132 | from any reachable state with the lock free or its own, any thread alone, also one whose build has just failed, reaches engine and tables if its next build succeeds |
| Workspace.ResolveWorkspace | claw_engine/engine/context/workspace.py:68-85 | layer by layer, the resolved workspace; None for an invalid id |
| Workspace.LayerOrder | claw_engine/engine/context/workspace.py:70-74 | for every key: secrets, then user, then workspace, then global |
| Workspace.ResolveSeparates | claw_engine/engine/context/secrets.py:24-26 | configurations that differ in secret values resolve alike but under sensitive keys, and look the same redacted |
| Workspace.ResolvedIs | claw_engine/engine/context/workspace.py:68-85 | a resolution: the workspace, its directory, its secret keys, and its settings |
| Workspace.RedactedIs | claw_engine/engine/context/secrets.py:24-26 | the redacted environment has the same keys, the mark for the sensitive ones and the values of the others |
| Workspace.DirectoryIs | claw_engine/engine/context/workspace.py:78 | the directory is one segment below the root, the workspace id |
| Workspace.DirectoriesApart | claw_engine/engine/context/workspace.py:69-78 | different workspaces never share a directory |
| Conversation.ConversationService.HandleCall | claw_engine/engine/orchestration/conversation.py:32-62 | the new store, result, request and trace of one call on the store object |
| ConversationHistory.HistoryAccounts | claw_engine/engine/orchestration/conversation.py:37-62 | after any history every key's session is exactly what the attempts on it say |
| ConversationHistory.RoundsCountSuccesses | claw_engine/engine/orchestration/conversation.py:43-59 | round_count is the number of successful calls on the key |
| ConversationHistory.FailureChangesNothing | claw_engine/engine/orchestration/conversation.py:37-57 | a call without reply leaves the store identical if the key had a session; else it adds an unused one, no mark, and every other key keeps its session |
| ConversationHistory.ResumeChain | claw_engine/engine/orchestration/engine.py:36-43 | each attempt reaches the first call's backend with the last success's handle, or none without resume |
| ConversationHistory.AnsweredOnce | claw_engine/engine/orchestration/conversation.py:41-42 | an answered message is only ever refused |
| ConversationHistory.UnansweredRetries | claw_engine/engine/orchestration/conversation.py:41-61 | a message whose turns failed is not refused as a duplicate |
| ConversationHistory.RefusedIffUsedUp | claw_engine/engine/orchestration/conversation.py:43-44 | the round limit refuses a call iff the successes on its key have used up the first call's limit |
| ConversationHistory.ResultIs | claw_engine/engine/orchestration/conversation.py:37-62 | after any history, exactly how an attempt ends: duplicate, then round limit, then unknown backend, then as its turn ends |
| ConversationHistory.SuccessRecords | claw_engine/engine/orchestration/conversation.py:59-61 | what a success leaves: one round more, its handle and time, the first call's identity, and its mark |
| ConversationHistory.RequestIs | claw_engine/engine/orchestration/conversation.py:46-57 | after any history, what the backend is asked: the first call's backend, this call's text, directory and environment, the last success's handle, and the session's dimensions |
| ConversationHistory.TraceIs | claw_engine/engine/orchestration/conversation.py:46-57 | after any history, a turn's trace has the session's dimensions, this call's text and metadata, and the outcome of the turn, which is the call's result |
| ConversationHistory.SharedIffSameKey | claw_engine/engine/persistence/contracts.py:34-39 | two attempts of a history use one session iff they are on one key |
| Gateway.WorkspaceConversationGateway.HandleMessage | claw_engine/engine/orchestration/workspace_gateway.py:16-28 | resolves, then converses, leaving the store, result and trace of the call; an invalid workspace changes nothing |
| Gateway.TraceNonInterference | claw_engine/engine/orchestration/workspace_gateway.py:19-28 | two systems that differ in secret values: same store, result and trace; requests agree off the secret keys and carry each system's secret on them |
| Gateway.HistoryNonInterference | claw_engine/engine/orchestration/engine.py:44-49 | the same over any history of messages |
| Gateway.CallIs | claw_engine/engine/orchestration/workspace_gateway.py:19-28 | the call an inquiry becomes, field by field, with the workspace's backend and limit before the defaults |
| Gateway.SameKeyIff | claw_engine/engine/orchestration/workspace_gateway.py:20-21 | two inquiries lead to one session key iff workspace, channel and thread agree |
| Gateway.InquiryRequest | claw_engine/engine/orchestration/workspace_gateway.py:19-28 | a request that reaches a backend carries the workspace's own directory and environment and the inquiry's text |
| Runner.ChannelRunner.HandleRaw | claw_engine/engine/channels/runner.py:19-32 | a reply is sent, to the message's thread with the final text, only after a successful call |
| Runner.CallConserves | claw_engine/engine/orchestration/conversation.py:37-62 | a call adds one round in total iff it replies |
| Runner.RepliesAreRounds | claw_engine/engine/channels/runner.py:19-32 | over any sequence of raw messages, replies sent equal rounds on record |
| Runner.RepliesAnswer | claw_engine/engine/channels/runner.py:19-32 | over any sequence, every reply answers a message of its own: it goes to that message's channel, thread and sender, with the final text of that message's turn; and every message whose call returns a result is answered |
| RunnerHistory.RunIsHistory | claw_engine/engine/channels/runner.py:19-32 | after any sequence of raw messages the store is that of the conversation history of those that are verified, parsed and routed to a valid workspace |
| RunnerHistory.DueIff | claw_engine/engine/channels/runner.py:23-31 | a message is answered iff it becomes an attempt and that attempt succeeds in the history so far |
| Sorting.Sorted | claw_engine/engine/skills/provisioner.py:74 | the elements of the set, strictly increasing in code-point order |
| Disk.CommonPathIs | claw_engine/engine/skills/provisioner.py:77-82 | the common path is the root iff the root is a prefix of the target |
| Disk.EntryArrives | claw_engine/engine/skills/provisioner.py:65 | links at any depth included, when exactly copying one entry fails, and what is then at its place |
| Copying.CopySucceedsIff | claw_engine/engine/skills/provisioner.py:65 | where no link is in the way, a copy raises unless no folder of the source meets a file and no file lands on a directory |
| Copying.CopyGoesWell | claw_engine/engine/skills/provisioner.py:65 | and then the disk is as before with the source on top, a file going into a directory it meets |
| Copying.CopyMergesIff | claw_engine/engine/skills/provisioner.py:65 | a copy leaves the merge of the source into what was there iff no folder of the source meets a file and no file of it meets a directory |
| Copying.FolderBecomesFile | claw_engine/engine/skills/provisioner.py:65 | a stale directory takes in the file that replaced it in the source |
| Provisioner.SkillProvisioner.ReadManifest | claw_engine/engine/skills/provisioner.py:96-113 | the valid names listed, nothing for a missing or unreadable manifest |
| Provisioner.SkillProvisioner.CopyAllowed | claw_engine/engine/skills/provisioner.py:47-66 | the tree after the copies up to the first that raises; the four buckets if none does |
| Provisioner.SkillProvisioner.Revoke | claw_engine/engine/skills/provisioner.py:72-85 | the removals, each guarded by containment, and the revoked list |
| Provisioner.SkillProvisioner.ProvisionCall | claw_engine/engine/skills/provisioner.py:37-91 | tree, manifest and report after one call; a call that raises leaves what it copied and the old manifest |
| ProvisionTheorems.BucketsPartition | claw_engine/engine/skills/provisioner.py:47-66 | every allowed skill is counted in the four buckets exactly as often as it is listed |
| ProvisionTheorems.ReportSays | claw_engine/engine/skills/provisioner.py:47-66 | provisioned are, in order, the allowed names that are valid, granted and have a SKILL.md in the source; denied the valid ones not granted; missing the valid, granted ones without a source directory; invalid the malformed names and the granted directories without a SKILL.md |
| ProvisionTheorems.EffectiveIsGranted | claw_engine/engine/skills/provisioner.py:71 | the effective set is the allowed names that are valid, granted and have a SKILL.md |
| ProvisionTheorems.LandsGranted | claw_engine/engine/skills/provisioner.py:49-65 | whatever a call writes, completed or not, comes from an entry of an allowed, valid, granted skill with a SKILL.md |
| ProvisionTheorems.CopiesTrail | claw_engine/engine/skills/provisioner.py:47-66 | the copies of a call: each allowed, granted skill in turn onto what those before it left, and none after the first that raises |
| ProvisionTheorems.ManagedIs | claw_engine/engine/skills/provisioner.py:96-113 | a name is managed iff the manifest can be read, lists it and it is valid |
| ProvisionLinks.RemovalContained | claw_engine/engine/skills/provisioner.py:73-85 | whatever the symbolic links, only paths strictly inside the resolved destination are removed |
| ProvisionLinks.RevokedIff | claw_engine/engine/skills/provisioner.py:74-85 | whatever the links, a name is revoked iff it then leads to a directory strictly inside the resolved destination, which goes with everything below it; else nothing changes |
| ProvisionLinks.CopiesLand | claw_engine/engine/skills/provisioner.py:63-66 | links at any depth included, the disk is as before with what landed on top, and everything landed where an entry of an effective skill leads |
| ProvisionLinks.CopiesStayInsideIff | claw_engine/engine/skills/provisioner.py:63-66 | copying leaves everything outside the destination alone, whatever the files contain, iff every path an effective skill writes resolves inside it |
| ProvisionLinks.LinksInsideSuffices | claw_engine/engine/skills/provisioner.py:63-66 | that is so if every link below the destination leads inside it |
| ProvisionLinks.NestedLinkEscapes | claw_engine/engine/skills/provisioner.py:65 | a link below a skill's own directory leads its copy where it points |
| ProvisionLinks.DanglingLinkFails | claw_engine/engine/skills/provisioner.py:65 | a copy onto a link that leads to no directory raises and changes nothing |
| ProvisionTheorems.CompletesIff | claw_engine/engine/skills/provisioner.py:37-91 | a call completes iff its destination can be made and every effective skill fits what is there |
| ProvisionTheorems.ProvisionAt | claw_engine/engine/skills/provisioner.py:47-88 | what a completed call does to one name's directory, files and subdirectories: merged if effective, gone if listed and not effective, else untouched |
| ProvisionTheorems.ProvisionFrame | claw_engine/engine/skills/provisioner.py:37-91 | every path outside effective and validly listed names is untouched, forged manifests and calls that raise included |
| ProvisionTheorems.ManifestReadsBack | claw_engine/engine/skills/provisioner.py:96-117 | the manifest written reads back as the effective set |
| ProvisionTheorems.RepeatChangesNothing | claw_engine/engine/skills/provisioner.py:37-91 | repeating a completed call completes, changes nothing and revokes nothing |
| ProvisionHistory.ManagedDirectory | claw_engine/engine/skills/provisioner.py:37-91 | after completed calls a name is there iff effective last, holding, files and subdirectories, the later-wins merge of the snapshots since it was last absent, if these are compatible |
| ProvisionHistory.MergedThroughoutIff | claw_engine/engine/skills/provisioner.py:37-91 | the merge is what is there after every call iff the snapshots are compatible |
| ProvisionHistory.CompatibleCompletes | claw_engine/engine/skills/provisioner.py:37-91 | with compatible snapshots of names absent at first, no call raises |
| ProvisionHistory.UserPathUntouched | claw_engine/engine/skills/provisioner.py:37-91 | paths under names never effective stay as they were, also when calls raise |
| ProvisionHistory.NamesOnDisk | claw_engine/engine/skills/provisioner.py:37-91 | after completed calls names on disk are the last effective set and the user's own names |
| ProvisionHistory.RevokedIsDifference | claw_engine/engine/skills/provisioner.py:71-85 | the revoked list is the sorted difference of consecutive effective sets |
| ProvisionCuts.StrandedIff | claw_engine/engine/skills/provisioner.py:63-88 | over calls cut short anywhere, a name is on disk but in no manifest iff a call that did not complete began to copy it while it was not listed and no later call completed with it |
| WorkflowRuns.LifecycleMeans | claw_engine/engine/workflows/contracts.py:41-55 | what a life of updates says about status, progress, result and error |
| WorkflowRuns.FinishedIsLast | claw_engine/engine/workflows/contracts.py:47-55 | no life goes on after a result or an error |
| WorkflowSystem.StepKeeps | claw_engine/engine/workflows/service.py:25-55 | every step keeps the single-writer, lifecycle and rerun invariants |
| WorkflowSystem.NoUpdateLost | claw_engine/engine/workflows/service.py:46-55 | over every interleaving a record is the replay of its worker's saves, which form one life |
| WorkflowSystem.SnapshotsAreCurrent | claw_engine/engine/workflows/contracts.py:75-81 | what a worker read is still stored when it saves |
| WorkflowSystem.OnlyForward | claw_engine/engine/workflows/service.py:46-55 | identity fixed, progress append-only, status forward, terminal records final |
| WorkflowRecords.StartKeepsArguments | claw_engine/engine/workflows/service.py:25-34 | over any execution a run keeps the id, name, parameters and owner it was started with |
| WorkflowRecords.RerunCopies | claw_engine/engine/workflows/service.py:39-44 | a rerun creates a run iff the run it read was terminal, and that run has its name, parameters and owner and points to it |
| WorkflowRecords.BeginIsKept | claw_engine/engine/workflows/service.py:47 | a queued run that its worker reads and saves is running, whatever others do meanwhile |
| WorkflowRecords.ReportIsKept | claw_engine/engine/workflows/contracts.py:75-81 | a valid report is appended whatever others do meanwhile, an invalid one changes nothing |
| WorkflowRecords.OutcomeIsKept | claw_engine/engine/workflows/service.py:50-55 | a handler's result or error is on record with its status, whatever others do meanwhile |
| WorkflowRecords.ShutRunsStay | claw_engine/engine/workflows/service.py:32-34 | a run started after shutdown stays pending for good |
| WorkflowService.MemoryWorkflowStore.Save | claw_engine/engine/workflows/memory_store.py:15-16 | overwrites one run |
| WorkflowService.MemoryWorkflowStore.Get | claw_engine/engine/workflows/memory_store.py:18-22 | the stored run, or none |
| WorkflowService.WorkflowService.ReportProgress | claw_engine/engine/workflows/contracts.py:75-81 | appends a valid event; an invalid fraction changes nothing |
| WorkflowService.WorkflowService.Execute | claw_engine/engine/workflows/service.py:46-55 | the record becomes the replay of the handler's life; no other run changes |
| WorkflowService.WorkflowService.Start | claw_engine/engine/workflows/service.py:25-34 | an unregistered workflow stores nothing; otherwise one new run, with its outcome |
| WorkflowService.WorkflowService.Rerun | claw_engine/engine/workflows/service.py:39-44 | only a terminal run is rerun, with its name, parameters and owner |
| WorkflowService.LifeFinishes | claw_engine/engine/workflows/service.py:46-55 | an inline execution leads a finished life |
| WorkflowService.InlineRunIs | claw_engine/engine/workflows/service.py:25-55 | the record of an inline execution: the arguments, the accepted reports in order, and the handler's outcome |
| WorkflowService.WorkflowToolBridge.Invoke | claw_engine/engine/workflows/bridge.py:35-49 | a run starts iff every gate is open and the workflow is registered, owned by the caller's workspace |
| WorkflowService.WorkflowToolBridge.Get | claw_engine/engine/workflows/bridge.py:51-63 | a run is handed out iff it exists, belongs to the workspace, and every gate is open now |
| WorkflowForest.RerunForest | claw_engine/engine/workflows/service.py:39-44 | reruns point to earlier, terminal runs; a chain shares name, parameters and owner with its root |
| WorkflowForest.ReadsOwnChainsOnly | claw_engine/engine/workflows/bridge.py:51-63 | over any execution a principal reads a run iff its chain's root belongs to the workspace and permissions hold now |
| PathSegments.SplitConcat | claw_engine/adapters/secrets/openbao/provider.py:122 | splitting at slashes commutes with concatenation |
| PathSegments.NoDotsFixed | claw_engine/adapters/secrets/openbao/provider.py:127-131 | a path without dot segments is a fixed point of dot-segment removal |
| PathSegments.RemovesDots | claw_engine/adapters/secrets/openbao/provider.py:127-131 | dot-segment removal on any absolute path: "." segments go, ".." segments take the segment before them along, the others stay in order |
| Formatting.ParseWritten | claw_engine/adapters/secrets/openbao/provider.py:100-107 | parsing a format string gives back the pieces it was written from, escaped braces, conversions and specs included |
| Formatting.DistinctIff | claw_engine/adapters/secrets/openbao/provider.py:249 | a placeholder shows all names differently iff its spec cuts nothing off and pads with nothing a name may contain, unless the name is quoted |
| Formatting.SpecWritten | claw_engine/adapters/secrets/openbao/provider.py:249 | a format spec written from fill, alignment, width, precision and type parses back to them, or is refused exactly if a number is too large, the type is not that of strings, or the alignment is that of numbers |
| Formatting.ShowSays | claw_engine/adapters/secrets/openbao/provider.py:249 | what a placeholder shows: quoted if its conversion asks for it, cut to the precision, then filled up to the width on the side its alignment says |
| SecretPath.CollectFields | claw_engine/adapters/secrets/openbao/provider.py:103-107 | the field names in order |
| SecretPath.CheckSegments | claw_engine/adapters/secrets/openbao/provider.py:122-140 | every segment of the sample passes, or the template is refused |
| SecretPath.ValidatePathTemplate | claw_engine/adapters/secrets/openbao/provider.py:75-140 | accepts exactly the templates with one placeholder, a valid conversion and spec, and sample segments that pass |
| SecretPath.SentinelDecides | claw_engine/adapters/secrets/openbao/provider.py:120-140 | the one sentinel decides, if the placeholder does not cut and pads safely: accepted iff clean for all workspace ids, iff clean for any one |
| SecretPath.GuaranteedIff | claw_engine/adapters/secrets/openbao/provider.py:75-140 | clean segments, as many for every id, and no two ids alike: a template keeps all three iff it is accepted and its placeholder neither cuts nor pads with an unsafe character, a slash, or, unquoted, a name character |
| SecretPath.PlainIsHarmless | claw_engine/adapters/secrets/openbao/provider.py:120 | a placeholder without conversion and format spec is such a placeholder |
| SecretPath.PlainTemplate | claw_engine/adapters/secrets/openbao/provider.py:249 | literal text around the plain placeholder is well shaped, slashes at its ends excepted, and renders to that text around the workspace id |
| SecretPath.TruncationWitness | claw_engine/adapters/secrets/openbao/provider.py:120-140 | an accepted template that renders a valid id to ".." and two valid ids alike |
| SecretPath.PathSplits | claw_engine/adapters/secrets/openbao/provider.py:249-250 | the segments of the composed path |
| SecretPath.PathIsCanonical | claw_engine/adapters/secrets/openbao/provider.py:238-250 | with an accepted template and a harmless placeholder: no empty or dot segment, no unsafe character, unchanged by dot-segment removal, for every valid workspace id |
| SecretPath.PathStructureFixed | claw_engine/adapters/secrets/openbao/provider.py:249-250 | two workspaces' paths differ in one segment, at the same place |
| SecretPath.PathIsInjective | claw_engine/adapters/secrets/openbao/provider.py:249-250 | different workspaces never share a path iff the placeholder shows them differently |

## Left out

- Subprocesses, watchdog threads, SQL drivers, HTTP, JSON text parsing and file I/O errors: they enter as lines and endings, rows and constraint violations, and completed calls.
- Command-line construction, health checks and backend or workflow registration.
- Message texts of errors, timestamps of events and runs, and the raw payloads attached to events.
- Engine.RunTurn: the model name, which is passed on unchanged.
- SessionProtocol.Linearizable: a call whose fields the SQLAlchemy adapter rejects appears as one that crashes before its next transaction.
- SecretPath.ValidatePathTemplate: gives no verdict on format specs with replacement fields of their own, such as `{workspace_id:{workspace_id}}`, and reads only ASCII digits in widths and precisions.
- Provisioner.SkillProvisioner.CopyAllowed: errors of permissions, full disks and file attributes, and a destination that leads back into the source; a call they stop is one cut short.
- Provisioner.SkillProvisioner.Revoke: a link that leads through another link keeps its resolved target when a revocation removes the other.
- ProvisionTheorems.ProvisionAt: for names that are not symbolic links and have none below; what calls do where there are is in `ProvisionLinks`. The same goes for the theorems on histories.
- ProvisionHistory.ManagedDirectory: for names absent before the first call; a skill named like the manifest makes a call raise and is not modelled.
- WorkflowSystem.NoUpdateLost: for handlers that return or raise Exception, do not report after they end or from other threads, and do not change their parameters in place.
- WorkflowService.WorkflowService.Start: parameters are taken as stored, after `dict(params or {})`.
- WorkflowService.WorkflowService.Execute: invalid progress reports are caught by the handler; a handler that lets them out is one that fails.
- Runner.RepliesAreRounds: counts replies handed to the gateway, which is taken not to raise.
- Exactly-once delivery under concurrent duplicates: the design does not claim it; the sequential claim and the interleaved bounds are proved instead.
- Git skill sources, the OTel tracer, Casbin identities, DSN validation, channel payload parsing and the command line.
