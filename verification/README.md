# KubeMetal: verified models

Dafny models of six components of KubeMetal whose correctness rests on more than one function at a time,
with proofs over all inputs, all runs or all interleavings. `dafny verify dfyconfig.toml` checks
everything.

| files | what they model |
|---|---|
| `Common` | option, result, 64-bit numbers, string order and sorted keys |
| `CanonicalJson`, `AgentAuthorization` | the canonical JSON text an invocation digest is computed over, session grants narrowed to invocation grants, exact approvals, one-shot claims |
| `MarkdownText`, `MarkdownDocument`, `MarkdownSections`, `MarkdownPacking`, `MarkdownChunks`, `MarkdownGuarantees`, `MarkdownReading` | the heading-aware Markdown chunker: what lines mean, line state machine, windows, greedy packer, merge of tiny sections; what its chunks guarantee about a document, and how they read |
| `CivilDate`, `Timestamp` | civil dates from day numbers and the event timestamp of the guardrails |
| `Guardrails` | automatic pause, manual pause and resume, per-pid overrides, as interleaved critical sections |
| `GpuAdmission` | admission of benchmark, training and serving to the GPU, as interleaved atomic actions |
| `ArchiveStream`, `ArchiveIdentity`, `ArchiveAcceptance` | the bounded digest of an image layer, the check that binds a saved archive to its locked digest, and what acceptance means entry by entry |
| `RankFusion`, `RetrievalMetric` | reciprocal rank fusion and nDCG |
| `CacheCleanup` | the cleanup walk over the local inference cache |

Code that changes state in steps is modelled by classes and loops (`Output`, `ExecutionReplayGuard`,
`SectionParser`, `GuardrailState`, `MlxState`, `Hasher`, `FileSystem`, and the methods with loops), each
proved against a definition that does not mention the code's own buffers. SHA-256, zlib, the JSON parser
and the discount of nDCG are parameters: a hash is any function, collision-free only where a lemma says
so; the decompressor is known by a contract (`ArchiveStream.Contract`, `ArchiveStream.Accurate`), and
`ArchiveStream.PromisesCanBeKept` shows that the contract is consistent.

Where a property fails for some inputs, the exact condition is proved:

- The chunk size bound holds for the chunks of every document exactly from `chunk_size` 12 up
  (`MarkdownGuarantees.ChunkSizeBoundIff`): the label of a path may take 8 characters and its brackets and
  newline 3 more, and a body has at least one. Below 12 the document of the two lines `# abcdefgh` and `a`
  fails.
- The chunks of every document keep all of its text exactly when `overlap` is not negative
  (`MarkdownGuarantees.NothingLostIff`; for one paragraph `MarkdownPacking.CoversUnlessOverlapNegative`);
  the function accepts a negative one and then skips text, whatever the chunk size.
- Timestamps sort as text like their instants exactly through the year 9999
  (`Timestamp.OrderAgreesThrough9999`).
- A manual resume is meant to hold: the loop must not pause the training again for the same cause. A
  loop's first step clears the overrides of all other pids, and nothing orders it before the steps of a
  later training: when it is scheduled late, that training may be paused again
  (`Guardrails.LateFirstStepRepeatsPause`). The step is `Harmful` when it drops a cause of the training in
  progress, unless the training is paused for that very cause with no signal under way, so that only a
  resume that records the cause again can set it running. `Guardrails.NoRepeatedPause` holds in every run
  without a harmful step, and `Guardrails.RepeatedPauseIffHarmful` shows that the condition is exact: after
  a loop's first step no run without further harm repeats a pause if and only if that step was not harmful.

## Model

| member | source | states |
|---|---|---|
| CanonicalJson.WriteCanonical | src-tauri/src/commands/agent_execution_security.rs:94-125 | The imperative printer appends exactly the canonical text of the value, arrays and key-sorted objects included |
| CanonicalJson.WriteItems | src-tauri/src/commands/agent_execution_security.rs:100-109 | The array loop appends a bracketed, comma-separated list of the items' canonical texts |
| CanonicalJson.WriteMembers | src-tauri/src/commands/agent_execution_security.rs:110-123 | The object loop appends the members in code-point order of their keys, escaped, comma-separated |
| CanonicalJson.ReadStringUndoesEscape | src-tauri/src/commands/agent_execution_security.rs:99 | Reading an escaped string (section 7 of RFC 8259) up to its closing quote gives back the string and exactly the text behind it |
| CanonicalJson.ParseUndoesPrint | src-tauri/src/commands/agent_execution_security.rs:94-125 | A parser recovers every JSON value from its canonical text followed by anything that cannot continue a number, and stops exactly at its end |
| CanonicalJson.CanonicalInjective | src-tauri/src/commands/agent_execution_security.rs:94-125 | Equal canonical texts mean equal values, objects taken as maps |
| CanonicalJson.PrintedIsShortest | src-tauri/src/commands/agent_execution_security.rs:99 | Of all texts that a reader of string escapes (section 7 of RFC 8259) accepts for a string, the printed one is the shortest |
| CanonicalJson.PlainPrintedAsIs | src-tauri/src/commands/agent_execution_security.rs:99 | A string without quotes, backslashes and control characters is printed as itself between quotes |
| CanonicalJson.ObjectText | src-tauri/src/commands/agent_execution_security.rs:110-123 | An object whose names need no escapes is its quoted names in order, each with a colon and the text of its value, commas between |
| Common.AtMostIff | src-tauri/src/commands/agent_execution_security.rs:113 | Key order is prefix first, else by the first differing code point |
| AgentAuthorization.ResolvedIff | src-tauri/src/commands/agent_execution_security.rs:155-167 | An invocation is resolved if and only if each of the seven texts has a character that is not whitespace |
| AgentAuthorization.DigestText | src-tauri/src/commands/agent_execution_security.rs:169-183 | The digest is the hash of one spelled-out text: nine members in fixed order, both version members with their values |
| AgentAuthorization.DigestPinsFields | src-tauri/src/commands/agent_execution_security.rs:137-197 | With a collision-free hash, two resolved invocations with one digest agree on every field but the resolution id, arguments and policy version included |
| AgentAuthorization.GrantIssuedIff | src-tauri/src/commands/agent_execution_security.rs:199-262 | A grant is issued if and only if the time is in the session window, identity, session and policy agree, the tool is listed, a prefix matches, the level is not L2 and the time to live is positive |
| AgentAuthorization.GrantLasts | src-tauri/src/commands/agent_execution_security.rs:252-274 | A grant is valid exactly before the requested end, before the session end and before the largest time; it names its session and carries its level |
| AgentAuthorization.OnlyReadsUnapproved | src-tauri/src/commands/agent_execution_security.rs:236-312 | Against an issued grant only L0 and L1 validate without an approval, and L2 never does |
| AgentAuthorization.ApprovalIsExact | src-tauri/src/commands/agent_execution_security.rs:236-312 | With a collision-free hash, an approval check against an issued grant succeeds if and only if the presented invocation is the one the grant was issued for, field for field, inside the grant's window, and an L3 grant has an approval of that grant, resolution and digest in its own window |
| AgentAuthorization.ExecutionReplayGuard.ClaimL3Execution | src-tauri/src/commands/agent_execution_security.rs:322-341 | One claim changes the consumed set and answers as the claim function says, also when the lock is poisoned |
| AgentAuthorization.AnswerConsumes | src-tauri/src/commands/agent_execution_security.rs:322-341 | A claim succeeds exactly for a valid approval of an L3 grant not consumed yet; a success consumes its id and nothing else, a failure consumes nothing |
| AgentAuthorization.ConsumedBySuccesses | src-tauri/src/commands/agent_execution_security.rs:314-342 | After any number of calls the consumed ids are the initial ones and those of the successful calls |
| AgentAuthorization.SucceedsOncePerApproval | src-tauri/src/commands/agent_execution_security.rs:314-342 | In any sequence of claims on issued grants a call succeeds if and only if its approval is valid for an L3 grant and no earlier call succeeded with that approval id |
| AgentAuthorization.SuccessWithinSession | src-tauri/src/commands/agent_execution_security.rs:199-342 | Every success lies in the parent session's window, tool list, target prefixes and identity, within the requested lifetime despite the saturating sum, and presents the granted invocation |
| MarkdownText.AtomicByFirstLine | scripts/rag/chunking.py:119-120 | The text test on a joined block says atomic exactly when the block's own first line is a fence marker or a table row |
| MarkdownText.FenceMarkerIff | scripts/rag/chunking.py:26 | A fence marker is up to three spaces and a whole run of three or more backticks or tildes |
| MarkdownText.ClosesFenceIff | scripts/rag/chunking.py:56-62 | A line closes a fence if and only if it is up to three spaces, at least as many of the opening symbol, and whitespace |
| MarkdownText.HeadingIff | scripts/rag/chunking.py:24 | A heading of a level is up to three spaces, that many hashes of one to six, and nothing or a space or tab behind them |
| MarkdownText.HeadingTitle | scripts/rag/chunking.py:24-25 | Its title is the stripped rest of the line, without hashes that end it behind a space or tab |
| MarkdownText.TableRowIff | scripts/rag/chunking.py:80 | A table row is a line whose first character that is not whitespace is a pipe |
| MarkdownText.JoinIs | scripts/rag/chunking.py:37-45 | Joining puts the separator between the parts and nothing else |
| MarkdownDocument.OpenAfter | scripts/rag/chunking.py:68-79 | Among the titled headings below the level of every later one, a new heading removes exactly those at its level or above and adds itself if titled |
| MarkdownDocument.PathAtMostSix | scripts/rag/chunking.py:73-77 | Levels on a section's path strictly increase, so the path has at most six parts |
| MarkdownDocument.BlocksHoldContent | scripts/rag/chunking.py:53-92 | The blocks of each section hold exactly its lines that are neither headings nor blank outside a fence, in order |
| MarkdownDocument.BlocksAreOk | scripts/rag/chunking.py:53-92 | Every fence block opens with a marker, every table block is all rows, every paragraph block all text |
| MarkdownDocument.AtomicIffNotParagraph | scripts/rag/chunking.py:53-120 | The text test agrees with the kind of block: atomic if and only if it is a fence or a table; no block is blank |
| MarkdownSections.SectionParser.PushHeading | scripts/rag/chunking.py:73-76 | The pop loop and push leave the stack holding exactly the headings still open after the new one |
| MarkdownSections.SectionParser.FlushPara | scripts/rag/chunking.py:37-40 | A gathered paragraph becomes exactly one more block |
| MarkdownSections.SectionParser.FlushTable | scripts/rag/chunking.py:42-45 | A gathered table becomes exactly one more block |
| MarkdownSections.SectionParser.CloseSection | scripts/rag/chunking.py:47-51 | The sections closed are exactly those that the lines so far mean |
| MarkdownSections.SectionParser.Feed | scripts/rag/chunking.py:53-88 | One line keeps stack, path, buffers and fence tied to the meaning of all lines so far: a buffer is filled exactly while the next line may still go on its block |
| MarkdownSections.ParseSections | scripts/rag/chunking.py:29-92 | The sections are exactly those the lines mean: one more than headings, section k with the titles still open after k headings as its path, and maximal runs of rows, of text lines and fences as its blocks |
| MarkdownPacking.SplitPlain | scripts/rag/chunking.py:105-116 | The windowing loop returns exactly the texts of the trimmed, non-blank windows |
| MarkdownPacking.WindowsAreTrimmed | scripts/rag/chunking.py:105-116 | Every window piece is within the budget, starts and ends with no whitespace, and only whitespace follows it within its window |
| MarkdownPacking.WindowsCover | scripts/rag/chunking.py:108-115 | Windows that step at most their length leave no non-whitespace character out |
| MarkdownPacking.WindowsShare | scripts/rag/chunking.py:108 | Neighbouring windows share `overlap` characters, but at most half of the budget, rounded down |
| MarkdownPacking.WindowsAdvance | scripts/rag/chunking.py:108-115 | A later window neither starts nor ends before an earlier one |
| MarkdownPacking.CoversUnlessOverlapNegative | scripts/rag/chunking.py:105-116 | All text of every paragraph is kept if and only if the overlap is not negative |
| MarkdownPacking.GreedyStaysAhead | scripts/rag/chunking.py:123-136 | Groups that could not take the next group's first piece need no more groups than any other fitting cut, even one with a head start |
| MarkdownPacking.GreedyIsOptimal | scripts/rag/chunking.py:123-136 | No cut of the same ordered pieces into consecutive groups that fit, or are single pieces, has fewer groups |
| MarkdownPacking.CutOnce | scripts/rag/chunking.py:123-136 | Blocks have exactly one greedy cut |
| MarkdownPacking.Pack | scripts/rag/chunking.py:123-136 | The packer returns the joined groups of the greedy cut of all pieces, in order and each once, with the fewest groups possible |
| MarkdownChunks.RoomBesidePrefix | scripts/rag/chunking.py:95-102 | Prefix and remaining budget fit the chunk size for every path if and only if the chunk size is at least 12 |
| MarkdownChunks.BudgetIs | scripts/rag/chunking.py:151 | A body longer than one character is within the budget if and only if it fits the chunk size beside its prefix |
| MarkdownChunks.AddSection | scripts/rag/chunking.py:150-173 | One section's texts are joined to the chunk held back or not, put out or held back, so that the chunks so far are a merging of all texts so far |
| MarkdownChunks.ChunkSections | scripts/rag/chunking.py:139-176 | The chunks render a merging of all packed texts in order: a text joins a chunk exactly when the chunk is tiny, ends with a section's only text, and takes it within the budget of its own path |
| MarkdownChunks.MergingOnce | scripts/rag/chunking.py:150-175 | A list of texts has exactly one such merging |
| MarkdownChunks.ChunksOnce | scripts/rag/chunking.py:139-176 | Parsed sections have exactly one list of chunks, so the contract of the chunker leaves no freedom |
| MarkdownChunks.ChunkMarkdownHeadings | scripts/rag/chunking.py:139-176 | The whole chunker returns the chunks of exactly the sections that the document's lines mean |
| MarkdownGuarantees.ChunkSizeBound | scripts/rag/chunking.py:95-176 | From chunk size 12 up every chunk with its prefix has at most `chunk_size` characters, or its body is exactly one fence or table block longer than its budget |
| MarkdownGuarantees.ChunkSizeBoundIff | scripts/rag/chunking.py:95-176 | That bound holds for the chunks of every document, with every overlap, if and only if the chunk size is at least 12 |
| MarkdownGuarantees.PiecesStand | scripts/rag/chunking.py:123-176 | Every piece of the document, trimmed, stands whole at a spot of its own in the chunks: spots follow the document order, chunk by chunk, and no two overlap |
| MarkdownGuarantees.NothingLost | scripts/rag/chunking.py:95-176 | With a non-negative overlap some pieces in document order hold every non-whitespace character of every block and stand in the chunks one behind another, each at a spot of its own |
| MarkdownGuarantees.NothingLostIff | scripts/rag/chunking.py:95-176 | Whatever the chunk size, the chunks of every document keep its text in this sense if and only if the overlap is not negative |
| MarkdownGuarantees.AtomicBlocksWhole | scripts/rag/chunking.py:53-176 | Every block that the lines make a fence or a table is one of these pieces, so it stands whole in one chunk at a spot of its own, trimmed at its ends, in document order |
| MarkdownGuarantees.ItemsFollowDocument | scripts/rag/chunking.py:123-176 | The texts the chunks are merged from hold all pieces of all sections in document order, each once |
| MarkdownGuarantees.DocumentOrder | scripts/rag/chunking.py:105-136 | Pieces go by section, by block, and within a block neither end goes back |
| MarkdownReading.ChunksRead | scripts/rag/chunking.py:95-176 | The chunks of a document hold all its pieces in order and each once; a chunk is a line with the titles open at its first piece, none for no titles, and its pieces with an empty line between two of a section and the later heading line too between two of different sections, stripped |
| MarkdownReading.PrefixHeads | scripts/rag/chunking.py:95-102 | That line is the titles with arrows between them, in brackets, if they fit a quarter of the chunk size or 8 characters, else an ellipsis and as much of their end as fits |
| MarkdownReading.BodySpelled | scripts/rag/chunking.py:139-176 | The body assembled by packing and merging is the spelled-out one |
| CivilDate.DayNumberUndoesCivil | src-tauri/src/commands/guardrails.rs:54-65 | Every day number, negative ones included, gives a valid date (section 5.7 and appendix C of RFC 3339), and an inverse recovers the day number |
| CivilDate.CivilUndoesDayNumber | src-tauri/src/commands/guardrails.rs:54-65 | Every valid date is the date of its day number, so the two are inverse bijections |
| CivilDate.CivilFollowsCalendar | src-tauri/src/commands/guardrails.rs:54-65 | Day 0 is 1970-01-01 and day n+1 is the calendar successor of day n |
| CivilDate.YearOfEraFinds | src-tauri/src/commands/guardrails.rs:58 | The division formula for the year of an era finds the year whose first day is the last not after the given day |
| Timestamp.TimestampReadsBack | src-tauri/src/commands/guardrails.rs:67-81 | Through the year 9999 the timestamp text reads back as the second it was printed from |
| Timestamp.TimestampForm | src-tauri/src/commands/guardrails.rs:79 | Through the year 9999 the text is twenty characters, digits but for the separators of RFC 3339 at their six places |
| Timestamp.TextOrderIsTimeOrder | src-tauri/src/commands/guardrails.rs:67-81 | Through the year 9999 comparing timestamps as text is comparing their instants, both ways |
| Timestamp.OrderAgreesThrough9999 | src-tauri/src/commands/guardrails.rs:67-81 | Text order agrees with time order on all instants up to n if and only if n lies within the year 9999 |
| Guardrails.GuardrailState.ApplySignalTransition | src-tauri/src/commands/guardrails.rs:407-419 | Sets the status of exactly the matching live training |
| Guardrails.GuardrailState.BeginResume | src-tauri/src/commands/guardrails.rs:436-466 | Answers the paused training's pid and records the cause it was paused for under that pid, replacing another pid's overrides |
| Guardrails.StepKeepsInv | src-tauri/src/commands/guardrails.rs:375-644 | Every step but a harmful first step keeps the invariant that ties slot, overrides, loops' copies and the event history together |
| Guardrails.RunKeepsInv | src-tauri/src/commands/guardrails.rs:375-644 | The invariant holds over every interleaved run of loops, commands, starts and ends in which no first step is harmful |
| Guardrails.NoRepeatedPause | src-tauri/src/commands/guardrails.rs:174-194 | In every run from the start without a harmful first step, after a manual resume from a battery or thermal pause that training is never auto-paused for that cause again, and after a memory pause only at critical level |
| Guardrails.TickPausesIff | src-tauri/src/commands/guardrails.rs:546-644 | In every state kept by the invariant a tick pauses for memory at critical level, or at a warning unless resumed from that cause; else for battery if switched on, on battery and not resumed from it; else for heat likewise at serious or critical; and else not at all |
| Guardrails.CriticalPauses | src-tauri/src/commands/guardrails.rs:176-178 | From any state with a running training an undisturbed tick at critical memory pressure pauses it, whatever the overrides |
| Guardrails.TickEndsLoop | src-tauri/src/commands/guardrails.rs:554-579 | The tick of a loop whose training ended or was replaced ends the loop and drops its own overrides and no others |
| Guardrails.MissedSignals | src-tauri/src/commands/guardrails.rs:375-401 | A signal that does not reach the process changes no status |
| Guardrails.PauseByHand | src-tauri/src/commands/guardrails.rs:421-433 | A manual pause stops a running training and is refused for every other |
| Guardrails.ResumeByHand | src-tauri/src/commands/guardrails.rs:435-471 | A manual resume sets a paused training running and is refused for every other |
| Guardrails.StartOrAbort | src-tauri/src/commands/mlx.rs:869-895 | A start over an ended training runs under the pid of its child, or leaves everything as it was; over a live one it is refused |
| Guardrails.OverridesStayWithTheirTraining | src-tauri/src/commands/guardrails.rs:515-544 | In every run, late first steps included, a pause decision is changed only by a manual resume of that very pid from that very cause |
| Guardrails.TerminalStatusStays | src-tauri/src/commands/guardrails.rs:404-419 | No run of pauses, resumes and loop steps changes a slot whose training has ended |
| Guardrails.LiveSlotStaysLive | src-tauri/src/commands/guardrails.rs:404-471 | No such run ends a training or changes the pid in the slot |
| Guardrails.RepeatedPauseIffHarmful | src-tauri/src/commands/guardrails.rs:421-644 | After a loop's first step no continuation without further harm repeats a pause if and only if that step was not harmful |
| Guardrails.LateFirstStepRepeatsPause | src-tauri/src/commands/guardrails.rs:525-547 | There is a run from the initial state in which a late first step leads to a repeated battery pause |
| GpuAdmission.MlxState.ClaimBenchmarkReservation | src-tauri/src/commands/mlx.rs:190-197 | The reservation is granted exactly when it was free, and is taken either way |
| GpuAdmission.MlxState.PlaceTraining | src-tauri/src/commands/mlx.rs:875-895 | Refuses over a training in progress, else takes the slot with pid 0 and hands back what it held |
| GpuAdmission.StepKeepsInv | src-tauri/src/commands/mlx.rs:187-218 | Every atomic action of every thread keeps the invariant: one guard, locks held, slots owned, nobody slips by a benchmark that has looked |
| GpuAdmission.RunKeepsInv | src-tauri/src/commands/mlx.rs:187-218 | The invariant holds over every interleaving of any number of threads |
| GpuAdmission.BenchmarkRunsAlone | src-tauri/src/commands/metrics.rs:423-456 | In every interleaving, from the moment the workload check passes until the guard drops, no training is in progress and no server occupies its slot |
| GpuAdmission.OneGuardAtATime | src-tauri/src/commands/mlx.rs:167-197 | In every interleaving the flag is set exactly while a guard is live, and at most one is |
| GpuAdmission.StartKeepsItsSlot | src-tauri/src/commands/mlx.rs:869-896 | A start that took its slot keeps it until it settles it, whatever other threads do |
| GpuAdmission.CheckAdmitsIff | src-tauri/src/commands/metrics.rs:431-449 | A benchmark that has looked at both slots is let in if and only if it saw no live training and no server; else the reservation drops |
| GpuAdmission.BenchmarkGetsIn | src-tauri/src/commands/metrics.rs:423-456 | Undisturbed, with the flag down, a benchmark gets in exactly when neither slot is in use |
| GpuAdmission.TrainingGetsIn | src-tauri/src/commands/mlx.rs:869-895 | Undisturbed, with the flag down, a training start takes the slot exactly when no live training holds it |
| GpuAdmission.ServingGetsIn | src-tauri/src/commands/mlx.rs:1564-1581 | Undisturbed, with the flag down, a server start takes the slot exactly when it is free |
| GpuAdmission.TrainingSettles | src-tauri/src/commands/mlx.rs:1022-1079 | A training start without a child leaves the state as it found it; with a child its pid is in the slot |
| GpuAdmission.FlagShutsOut | src-tauri/src/commands/mlx.rs:187-218 | While the flag is up no claim and no start goes on |
| ArchiveStream.InflateChunk | scripts/airgap/archive_identity.py:78-101 | The inner loop terminates on every input, feeds the hash the output of the members it inflates, never goes over the cap, and refuses no good input |
| ArchiveStream.StreamDigests | scripts/airgap/archive_identity.py:52-102 | Plain pieces are at most a chunk each and the cap together, whatever happens; success returns the digests of the stored bytes and of the contents of all gzip members (section 2.2 of RFC 1952); a plain layer is accepted if and only if it is not zstd and within the cap, a gzip layer, with a decompressor that keeps its promises, if and only if it unpacks within the cap |
| ArchiveStream.OneReading | scripts/airgap/archive_identity.py:80-81 | A file splits into gzip members in at most one way |
| ArchiveStream.UnpacksOnce | scripts/airgap/archive_identity.py:52-102 | A layer file has at most one uncompressed content |
| ArchiveIdentity.IndexMembers | scripts/airgap/archive_identity.py:123-139 | The index holds every entry under its own name, and is built if and only if the count is within the cap and names are safe, entries regular and no name repeated |
| ArchiveIdentity.ReadImage | scripts/airgap/archive_identity.py:164-185 | Returns the one image that manifest.json describes for the platform, and fails only when it describes none |
| ArchiveIdentity.CheckLayer | scripts/airgap/archive_identity.py:189-191 | Accepts a layer only if, and with a decompressor that keeps its promises if and only if, its file unpacks within the cap to content with the listed digest, and returns the digest of the stored file |
| ArchiveIdentity.CheckLayers | scripts/airgap/archive_identity.py:187-192 | Accepts only if, and with such a decompressor if and only if, every named layer unpacks to content with its listed digest, and returns the stored digests in order |
| ArchiveIdentity.LockCheckedIff | scripts/airgap/archive_identity.py:199-219 | The walk from the locked digest over an optional manifest list succeeds if and only if hashed blobs lead from it to an image manifest naming exactly this configuration and these layer files |
| ArchiveIdentity.CheckArchive | scripts/airgap/archive_identity.py:118-219 | An archive is accepted only if, and with a decompressor that keeps its promises if and only if, every byte it hands to the scanner is bound to the locked digest: contents to the configuration, configuration or manifest to the lock |
| ArchiveIdentity.LockPinsImage | scripts/airgap/archive_identity.py:199-219 | With a collision-free hash one locked digest binds one configuration and one list of layer files, across archives |
| ArchiveIdentity.OneDigestOneImage | scripts/airgap/archive_identity.py:105-219 | With a collision-free hash, two archives accepted for one digest by the same route have the same configuration bytes and the same uncompressed layers in the same order |
| ArchiveIdentity.SafeNameIff | scripts/airgap/archive_identity.py:130-133 | A member name is safe if and only if it has no backslash and is a dot, or non-empty parts other than one or two dots joined by single slashes |
| ArchiveAcceptance.PlatformManifestIff | scripts/airgap/archive_identity.py:105-115 | A manifest list answers a digest if and only if that is the well-formed digest of its only entry for linux on arm64, variant absent, null or v8, read off the JSON members |
| ArchiveAcceptance.ConfigIff | scripts/airgap/archive_identity.py:172-184 | A configuration is accepted with its list of digests if and only if its members say linux, arm64 and such a variant, and hold that list under rootfs |
| ArchiveAcceptance.LayerIff | scripts/airgap/archive_identity.py:59-62 | A layer file is unpacked as gzip or taken plain by its first two bytes, refused as zstd by its first four, and bound to its digest |
| ArchiveAcceptance.DigestForm | scripts/airgap/archive_identity.py:29 | A digest is sha256: and 64 lower-case hexadecimal digits |
| ArchiveAcceptance.AcceptedIff | scripts/airgap/archive_identity.py:118-219 | An archive is accepted with an image if and only if its entries are tidy, manifest.json describes the image, the configuration is for the platform and lists the digests of the layers, and the lock is the digest of the configuration or of a stored blob that leads to a manifest with the digests of configuration and layers |
| RankFusion.Enter | scripts/rag/rag_host.py:181-202 | Entering a list's hits keeps the table equal to the definition's entries, first rank per key and list; fails exactly on a hit without an id |
| RankFusion.OneMoreHit | scripts/rag/rag_host.py:198-202 | One more hit changes a key's term only if it is that key's first in the list |
| RankFusion.RrfFuse | scripts/rag/rag_host.py:177-218 | Fails exactly when some hit has no id; otherwise returns the first `top_k` entries of the ranking of exactly the chunks found, each once with its summed score, by falling score, then source, chunk index and id |
| RankFusion.RankingUnique | scripts/rag/rag_host.py:204 | Two lists have exactly one ranking |
| RankFusion.SmallerIsPrefix | scripts/rag/rag_host.py:218 | Of two answers for the same lists the one for the smaller `top_k` is a prefix of the other |
| RankFusion.AnswerLength | scripts/rag/rag_host.py:218 | An answer has `top_k` entries, or one for each distinct chunk when those are fewer; a negative `top_k` drops that many |
| RankFusion.EntryForm | scripts/rag/rag_host.py:181-202 | An entry scores 1/(k + rank) for its first hit in each list that has it, and carries text, name and provenance of those hits, the lexical text first |
| RankFusion.AnswerOrder | scripts/rag/rag_host.py:204 | An earlier entry has the higher score, or the same score and the smaller source, index or id |
| RankFusion.AnswerIsBest | scripts/rag/rag_host.py:204-218 | A chunk left out of an answer is outranked by every chunk in it |
| RankFusion.AheadInEveryList | scripts/rag/rag_host.py:181-204 | A key ahead of another in every list that holds the other ranks above it |
| RankFusion.ExchangeKeepsOrder | scripts/rag/rag_host.py:177-218 | Swapping the two lists keeps the order of the keys and their scores |
| RetrievalMetric.RankedDocs | scripts/rag/eval_retrieval.py:56-62 | The documents of the results, each once, in the order of their first result |
| RetrievalMetric.GainAtMostIdeal | scripts/rag/eval_retrieval.py:76-84 | The gain of a ranking is at most the ideal gain of its number of hits, and equal exactly when the hits come first |
| RetrievalMetric.HitsAtMostRelevant | scripts/rag/eval_retrieval.py:56-62 | Without repeated documents there are at most as many hits as relevant documents |
| RetrievalMetric.NdcgRange | scripts/rag/eval_retrieval.py:56-84 | nDCG at k of a result list's documents lies between 0 and 1, and is 1 if and only if the first min(k, number relevant) documents are there and all relevant |
| RetrievalMetric.MovingUpRaises | scripts/rag/eval_retrieval.py:76-84 | Moving a relevant document one place up, past one that is not relevant, raises nDCG at every place up to k |
| CacheCleanup.CleanupTree | src-tauri/src/commands/local_inference_cache.rs:164-218 | A real run leaves exactly the filtered tree: old regular files gone, then emptied directories other than the root, links and everything outside untouched; a dry run changes nothing; both count the same candidate files and bytes, and a real run what it removed |
| CacheCleanup.CleanupDirectory | src-tauri/src/commands/local_inference_cache.rs:191-217 | The same for a directory: children one after another, in any order, then the directory if nothing is left in it |
| CacheCleanup.DirectoryDone | src-tauri/src/commands/local_inference_cache.rs:199-217 | Cleaning all children and dropping the directory when empty is the filter on the whole subtree |
| CacheCleanup.NothingUnaccounted | src-tauri/src/commands/local_inference_cache.rs:164-218 | Every path is left, an old file or an emptied directory, and exactly one of them; bytes before are bytes left plus candidate bytes |
| CacheCleanup.LeftIff | src-tauri/src/commands/local_inference_cache.rs:157-218 | A file is left if and only if it has no time or one after the cutoff, links and special files always are, a directory if and only if it is the root or holds something left that is no directory |
| CacheCleanup.LaterLeavesLess | src-tauri/src/commands/local_inference_cache.rs:157-162 | A later cutoff never leaves more |
| CacheCleanup.CleaningKeepsTheTree | src-tauri/src/commands/local_inference_cache.rs:210-217 | No survivor loses its directory |
| CacheCleanup.CleaningTwiceIsCleaningOnce | src-tauri/src/commands/local_inference_cache.rs:164-218 | A second run finds nothing to remove |

## Left out

- JSON numbers are the tokens the number formatter prints; that two numbers of different value print differently is its matter.
- CanonicalJson.PrintedIsShortest: the reader takes every escape of one character, digits in lower case; pairs of escapes for one character are longer than the character and are not read.
- SHA-256 is an arbitrary function from bytes (or text) to text; collision-freeness is an idealisation, assumed by name in the lemmas that need it.
- ArchiveStream.StreamDigests: zlib is a contract, not an implementation; its promise to accept good input (`Accurate`) is used only for the direction that a good layer is not refused.
- Tar reading and `json.loads` are parameters or inputs: an archive is its list of members, a JSON text is what a function says it is. Duplicate JSON keys and numbers are whatever that function makes of them.
- ArchiveIdentity.OneDigestOneImage: compares archives accepted by the same route; one accepted by its configuration and another by its manifest would need equal digests of different kinds of document.
- Error texts are shortened; which check fails first is kept, except that a missing or mismatched locked blob is reported by the text of the failing read.
- Environment variables for the caps are values of `Caps`.
- `str.splitlines` is applied before the model starts: a document is its lines, none with a newline in it.
- Regular expressions are read character by character in `MarkdownText`; `FenceMarker`, `ClosesFence` and `HeadingOf` take the place of the patterns.
- RankFusion.RrfFuse: scores are exact reals, so the order of addition does not matter; floating-point ties are not modelled, and `k` is a natural number. The output's `retrievers` list is determined by which of the two found entries are there.
- The built-in sorts are functions with the property of sorting; their algorithm is not modelled.
- RetrievalMetric.NdcgRange: holds for every strictly falling positive discount; that 1/log2(rank + 1) is one is not proved here.
- `recall_at_k`, reciprocal rank and percentiles would only add easy members.
- Guardrails.NoRepeatedPause: assumes that the operating system does not reuse a pid, and excludes runs with a harmful first step, in which it fails; `Guardrails.RepeatedPauseIffHarmful` states that condition.
- Guardrails.GuardrailState.BeginResume: the slot read and the override insert are one step, where the code takes two locks in turn.
- A loop's last tick reads the slot and drops its own overrides in one step; the pid it drops can no longer be resumed.
- Guardrail signals either reach the process or do not; that the status always matches the process is not claimed. Poisoned locks, the event ring, correlation ids and settings commands are not modelled.
- An automatic pause is counted when it takes effect on a live slot; a signal sent to a training that has meanwhile ended is not.
- GpuAdmission.MlxState.ClearServing: the exit reader's check and clear are one step, where the code takes the lock twice.
- The spawn gate on memory pressure and heat, adapter admission, health checks and the last known good configuration are not part of this model.
- Training statuses are live or not in `GpuAdmission`; promotion and deletion of adapters and manifest verification are not part of this model.
- CacheCleanup.CleanupTree: file operations succeed and nobody else changes the tree during the walk; the error list is empty then. Reading a directory is one step, and names are compared as strings.
- Path validation before a cleanup and the read-only scan would only add easy members.
- User interface, Kubernetes, process spawning and CI scripts hold no state worth proving here.
