# Verified model of PairDock

PairDock lets a product manager work on a code base through an agent that runs on a developer's
machine. This project models the parts of PairDock whose correctness is hardest to see by reading,
and proves what they promise. Every module names the source files it models in its first comment.

Two forms recur. Code that changes fields or local variables step by step is a class or a method
whose contract ties the new state to a function of the old one. What the source promises about whole
runs is proved about those functions: a run is any sequence of steps, in any interleaving that the
source allows, and the lemmas hold for every run. Beside these, lemmas say of each single step, field by field and
without the functions that compute it, what it changes, when it is refused, and with which answer.

- **PNG captures** (`PngChunks`, `PngWalk`, `PngScanlines`, `PngCapture`): the chunk walk accepts a byte
  string exactly when it serialises a list of chunks that meets the ordering rules; that list is unique.
  The streaming scanline check, which never holds the bitmap, gives the verdict of a check of the whole
  inflated data for every way of cutting it. The Adam7 passes carry each pixel exactly once.
  The rules are the code's, which are weaker than RFC 2083 in one place: a palette is not refused for
  colour types 0 and 4. The code reads chunk types with a decoder that drops the high bit of each
  byte, so the rules compare types modulo 128.
- **Selection prompts** (`JsonText`, `SelectionPrompt`): a pretty printer and a parser for JSON are written
  out and proved inverse, and a prompt built around such JSON is parsed back to the message and the
  selections, for every message, also after its newlines became CRLF.
- **Preview comparisons** (`ComparisonView`, `ComparisonProtocol`, `Attachments`): the event log, the
  concurrent requests that append to it, the read model, and the compensating clean-up of uploads.
- **Desktop agent** (`DesktopManager`, `DesktopEffects`, `DesktopAgent`): the operation queue, status callbacks of any
  generation, pairing, and the saved profile; what each operation does, field by field; and a class that carries the
  run it stands in, so its methods promise what holds on every run.
- **Pairing limiter** (`PairingLimiter`): its buckets, and why a desktop that follows the
  polling interval never uses up its own.
- **Agent output** (`HarnessQueue`, `HarnessOutput`, `AgentStream`, `Conversation`, `RunConversation`): the asynchronous
  queue, the lines cut from arbitrary chunks, the two together with a consumer, the passes over the conversation
  shown in the browser, and what they show of one run of the agent, alone and among the session's other items.
- **Connected agents** (`AgentRegistry`), **preview selection** (`PreviewBridge`), **sessions**
  (`SessionLifecycle`), **project creation** (`ProjectCreation`), **bounded output** (`BoundedLogs`).
- `Common` and `StableSort` hold the option and result types, facts about sequences, and the stable sort that two modules use.

Where the code does less than one might expect, a lemma says so:

- The registry treats an empty identifier as no connection. Sockets have names and the protocol requires agents to
  have them (`packages/shared-contracts/src/protocol/events.ts:21`), so such a registration does not arrive; the maps
  depend on that, since they stay inverse after an accepted registration and any next step exactly if its identifiers
  are not empty (`AgentRegistry.NamedExactly`, `AgentRegistry.EmptySocketBreaks`, `AgentRegistry.EmptyAgentBreaks`).
- Loading a desktop profile does not check that its project keys carry the connection's prefix
  (`DesktopManager.StartOfStored`).
- A closed session can be left again: exactly by an error, a failed agent run, a validation result, or the end of a
  review request that was in progress (`SessionLifecycle.ClosedLeftBy`, `SessionLifecycle.StaysClosed`). Its
  closing time is altered exactly by the end of a close at another time and by the end of a review request that
  read another (`SessionLifecycle.ClosedAtAlteredBy`, `SessionLifecycle.ClosedAtKept`). Both happen
  (`SessionLifecycle.CloseResetsClosedAt`, `SessionLifecycle.ReviewUndoesClose`).
- The final message of a run is shown once exactly when the exit code is 0 and no error is shown between its report
  and its repetition. After any other exit code it is repeated as progress and shows twice, and so it does after a
  message line and an error line that is worded for the user
  (`RunConversation.FinalMessageShownOnce`, `RunConversation.ShownTwice`).
- The form can offer what the server refuses. The server accepts an offer exactly if trimming leaves repository, branch
  and key as they are, the key's first publication is by an agent of the user for that repository, and the first agent
  that the key names either publishes it, and trimming leaves model and effort as they are, or has no models, or has
  the trimmed model and effort too (`ProjectCreation.OfferAccepted`). Agents may publish names that start or end with
  white space, a key twice, or a key that is an agent's identifier (`ProjectCreation.PaddedNameRefused`,
  `ProjectCreation.DuplicateKeyRefused`, `ProjectCreation.AgentIdShadowsKey`).
- `slice(-0)` keeps everything, so compaction leaves room for the end of every log exactly from a maximum of 114 on
  (`BoundedLogs.RoomThreshold`, `BoundedLogs.NoRoomAt113`); an empty chunk at the limit counts as truncation
  (`BoundedLogs.TruncationMeans`).
- A row of attachment metadata can be left without its object when the deletion of metadata fails
  (`Attachments.FailureKeepsTogether`).

## Model

| member | source | states |
|---|---|---|
| PngChunks.RunMeetsRules | apps/api/src/attachments/preview-capture-validation.ts:47-76 | The ordering tests, chunk by chunk, accept a list exactly when every prefix rule holds: header first and only there, one palette of legal size before the data, consecutive data chunks, no unknown critical chunk, nothing after the empty end marker; and the state then summarises the list |
| PngWalk.WalkAccepts | apps/api/src/attachments/preview-capture-validation.ts:51-76 | The walk accepts exactly the bodies that serialise a grammatical chunk list, and returns that list's image data in order |
| PngWalk.EncodingUnique | apps/api/src/attachments/preview-capture-validation.ts:51-75 | No two chunk lists have the same serialisation |
| PngWalk.WalkInvertsSerialiser | apps/api/src/attachments/preview-capture-validation.ts:51-76 | Walking a serialised list gives its image data if it is grammatical and a rejection if not |
| PngWalk.HighBitsIgnored | apps/api/src/attachments/preview-capture-validation.ts:56-74 | Chunks whose type bytes agree modulo 128 are treated alike |
| PngWalk.SpelledLength | apps/api/src/attachments/preview-capture-validation.ts:26-27 | An accepted file has at least 57 bytes and its first chunk is the header whose 13 bytes are read at offset 16 |
| PngWalk.OrderChunk | apps/api/src/attachments/preview-capture-validation.ts:57-73 | The branches of the loop body on the source's variables compute the automaton's step |
| PngWalk.WalkChunks | apps/api/src/attachments/preview-capture-validation.ts:47-76 | The loop terminates, never reads out of bounds, and returns what the specification of the walk says |
| PngScanlines.PixelCovered | apps/api/src/attachments/preview-capture-validation.ts:79-96 | Every pixel is a sample of some line of some pass |
| PngScanlines.RowsAre | apps/api/src/attachments/preview-capture-validation.ts:91-96 | The layout has, for each pass that holds samples, its rounded-up bytes per line and its lines, in pass order |
| PngScanlines.PixelCoveredOnce | apps/api/src/attachments/preview-capture-validation.ts:79-96 | No pixel is a sample twice |
| PngScanlines.SamplesInside | apps/api/src/attachments/preview-capture-validation.ts:79-96 | Every sample of every pass is a pixel of the image |
| PngScanlines.AreaSums | apps/api/src/attachments/preview-capture-validation.ts:79-96 | The pass areas add up to width times height |
| PngScanlines.ExpectedBytesBounds | apps/api/src/attachments/preview-capture-validation.ts:91-97 | The expected size is the pixel bits plus at least one and less than two bytes for each transmitted scanline |
| PngScanlines.CheckStream | apps/api/src/attachments/preview-capture-validation.ts:104-130 | For every cut into chunks the streaming check accepts exactly when the concatenation has the expected length and a filter type of at most 4 on every scanline; the pass index stays in range |
| PngCapture.HeaderTable | apps/api/src/attachments/preview-capture-validation.ts:33-45 | The header tests are the table of section 4.1.1 of RFC 2083 |
| PngCapture.HeaderLayout | apps/api/src/attachments/preview-capture-validation.ts:10-16 | For every header in the table the layout has depth times samples bits for each pixel, three samples with the colour bit and without a palette, else one, and one more with the alpha bit; each line is padded to whole bytes after its filter byte, and without interlacing there is one line for each row of pixels |
| PngCapture.AcceptsExactlyWellFormed | apps/api/src/attachments/preview-capture-validation.ts:18-139 | A PNG upload of legal size is accepted exactly when it is the signature and a grammatical chunk list with a legal header whose data inflates to the announced layout |
| PngCapture.AcceptsExactlyImages | apps/api/src/attachments/preview-capture-validation.ts:18-139 | For every size, a file is accepted as an image of that size exactly if it is a PNG upload of at most 5 MB whose chunks serialise a header of that size, a listed depth and colour type, and data that inflates to their layout; width and height are the big-endian words at offsets 16 and 20 |
| PngCapture.RefusalMeans | apps/api/src/attachments/preview-capture-validation.ts:18-32 | Which error a file gets: no PNG, too large, a size out of 1 to 4096, or otherwise invalid |
| PngCapture.BusyExactly | apps/api/src/attachments/preview-capture-validation.ts:98-101 | A file that is good so far is turned away exactly while two others decode |
| PngCapture.PoolMeans | apps/api/src/attachments/preview-capture-validation.ts:98-138 | A validation takes a slot if its file is good so far and fewer than two decode, and gives it back when its second half ends |
| PngCapture.CutsIgnored | apps/api/src/attachments/preview-capture-validation.ts:110-130 | The verdict does not depend on how the inflater cuts its output |
| PngCapture.PreviewCaptureValidator.Begin | apps/api/src/attachments/preview-capture-validation.ts:18-103 | The first half returns the specified error or job and the counter after it: a decoder slot is taken exactly when a job is returned |
| PngCapture.PreviewCaptureValidator.Finish | apps/api/src/attachments/preview-capture-validation.ts:104-138 | The second half accepts exactly what decodes, and gives the slot back on every path |
| PngCapture.DecodersBounded | apps/api/src/attachments/preview-capture-validation.ts:98-101 | At every point of every interleaving of the two halves the counter is the number of jobs between them, at most two, and each such job may be finished |
| JsonText.RoundTrip | packages/shared-contracts/src/preview-selection-prompt.ts:33-72 | Parsing pretty-printed JSON, with either newline, gives the value back |
| JsonText.BodyRoundTrip | packages/shared-contracts/src/preview-selection-prompt.ts:33-72 | Every string of code units, lone surrogates included, survives quoting and parsing |
| JsonText.PrintFlowing | packages/shared-contracts/src/preview-selection-prompt.ts:31-34 | Printed JSON holds no blank line and no newline at its end |
| JsonText.PrintCrlf | packages/shared-contracts/src/preview-selection-prompt.ts:51-55 | Converting the newlines of printed JSON gives the print with the other newline |
| JsonText.QuoteMeans | packages/shared-contracts/src/preview-selection-prompt.ts:33-33 | How each code unit is quoted: short escapes, four hexadecimal digits for control characters and lone surrogates, and everything else as it is |
| JsonText.CharactersRead | packages/shared-contracts/src/preview-selection-prompt.ts:69-73 | Which characters are white space, hexadecimal digits and escapes |
| JsonText.WholeTextRead | packages/shared-contracts/src/preview-selection-prompt.ts:69-73 | Nothing but white space may follow the value |
| SelectionPrompt.SelectionRead | packages/shared-contracts/src/preview-selection-prompt.ts:13-21 | A selection is valid exactly when the strict schema reads its own JSON back to it |
| SelectionPrompt.ReadIsValid | packages/shared-contracts/src/preview-selection-prompt.ts:13-21 | Whatever the schema accepts is a valid selection |
| SelectionPrompt.ReadMeans | packages/shared-contracts/src/preview-selection-prompt.ts:13-21 | The schema reads a selection exactly from the objects without other keys that show it, field by field, if it is valid; a repeated key counts with its last value |
| SelectionPrompt.BuildMeans | packages/shared-contracts/src/preview-selection-prompt.ts:23-42 | A message without selections is sent as it is; more than 5 selections are refused, and otherwise a prompt is built exactly if message, header and fenced JSON with the blank lines between them have at most 20,480 characters |
| SelectionPrompt.FixedText | packages/shared-contracts/src/preview-selection-prompt.ts:8-11 | The header and the fence around the JSON, character by character |
| SelectionPrompt.TooLongRejected | packages/shared-contracts/src/preview-selection-prompt.ts:44-49 | A text longer than a prompt may be is not searched for selections |
| SelectionPrompt.ParseBuilt | packages/shared-contracts/src/preview-selection-prompt.ts:23-81 | For 1 to 5 valid selections a prompt is built exactly if it fits the limit, and parsing it then gives exactly the message and the selections, for every message, even one that holds an earlier context block |
| SelectionPrompt.ParseBuiltCrlf | packages/shared-contracts/src/preview-selection-prompt.ts:44-81 | The same after every newline became CRLF, with the message's newlines converted, while the converted prompt fits the limit |
| SelectionPrompt.ParseTrimmed | packages/shared-contracts/src/preview-selection-prompt.ts:61-67 | A context block without a message is parsed to an empty message and the selections |
| SelectionPrompt.DisplayedWasThere | packages/shared-contracts/src/preview-selection-prompt.ts:44-81 | Whatever is displayed was in the text: a message, a blank line and a block whose JSON denotes valid selections |
| ComparisonView.ReadPermuted | apps/api/src/attachments/preview-comparisons.service.ts:147-190 | The list is the same for every order of the stored records, given distinct sequence numbers |
| ComparisonView.GroupsMean | apps/api/src/attachments/preview-comparisons.service.ts:162-170 | A group is the first baseline of its comparison with the last later after capture in the same context |
| ComparisonView.CollectsExactly | apps/api/src/attachments/preview-comparisons.service.ts:152-160 | Exactly the readable captures of the session that no agent sent, with a positive number, are read |
| ComparisonView.SameContextMeans | apps/api/src/attachments/preview-comparisons.service.ts:210-221 | Two captures are comparable exactly if page, viewport and dimensions are the same |
| ComparisonView.CaptureShown | apps/api/src/attachments/preview-comparisons.service.ts:192-207 | A capture is shown exactly if its attachment is a private comparison image of the session, and with what |
| ComparisonView.ComparisonShown | apps/api/src/attachments/preview-comparisons.service.ts:178-188 | A comparison is shown exactly if its baseline is, with the baseline's page and viewport |
| ComparisonView.ReadOfOne | apps/api/src/attachments/preview-comparisons.service.ts:88-93 | Reading only one comparison's records gives exactly its entries of the full list |
| StableSort.SortFiltered | apps/api/src/attachments/preview-comparisons.service.ts:161 | The stable sort commutes with leaving elements out |
| ComparisonView.GroupCaptures | apps/api/src/attachments/preview-comparisons.service.ts:162-170 | The grouping loop computes the specified groups in insertion order |
| ComparisonView.ReadComparisons | apps/api/src/attachments/preview-comparisons.service.ts:171-189 | The rendering loop computes the specified list |
| ComparisonProtocol.RunKeeps | apps/api/src/attachments/preview-comparisons.service.ts:46-145 | Every interleaving of pre-checks, uploads, locked appends and clean-ups keeps the log and ownership invariant, and the log only grows |
| ComparisonProtocol.LogSafety | apps/api/src/attachments/preview-comparisons.service.ts:67-145 | At most 80 captures and 20 baselines, sequence numbers 1 to n in append order, one baseline for each comparison, and an earlier baseline in the same context for every after |
| ComparisonProtocol.NothingLeaks | apps/api/src/attachments/preview-comparisons.service.ts:59-102 | Once all requests have ended, also those whose transaction threw, an attachment is stored exactly when a capture owns it, and exactly one does |
| ComparisonProtocol.ListUnordered | apps/api/src/attachments/preview-comparisons.service.ts:42-44 | On every run the list does not depend on the order in which the store returns the events |
| ComparisonProtocol.BaselineKept | apps/api/src/attachments/preview-comparisons.service.ts:163-170 | No run replaces the baseline of a comparison |
| ComparisonProtocol.CommitShows | apps/api/src/attachments/preview-comparisons.service.ts:67-98 | A commit whose locked check succeeds finds its comparison; the answer shows the new capture and is the one entry of that comparison in the list read next |
| ComparisonProtocol.AllowedExactly | apps/api/src/attachments/preview-comparisons.service.ts:105-145 | On any log a capture is allowed exactly if the session exists, accepts prompts and previews no other origin, fewer than 80 captures are recorded, and, for a baseline, fewer than 20 baselines, for an after capture, a first baseline of its comparison with the same page and viewport, and the same dimensions where they are known |
| ComparisonProtocol.RefusedExactly | apps/api/src/attachments/preview-comparisons.service.ts:111-143 | Which refusal each of these failures gets |
| ComparisonProtocol.EarlierCheckAllows | apps/api/src/attachments/preview-comparisons.service.ts:59-69 | What the locked check allows with dimensions, the check before the upload allows without them |
| ComparisonProtocol.ArrivalMeans | apps/api/src/attachments/preview-comparisons.service.ts:59-59 | A request goes on to its upload exactly if the check without dimensions allows it |
| ComparisonProtocol.CommitRecords | apps/api/src/attachments/preview-comparisons.service.ts:67-98 | A locked transaction whose check allows it appends exactly one event, which records the stage, comparison, page, viewport, dimensions and attachment of the request under the next number |
| ComparisonProtocol.CommitFails | apps/api/src/attachments/preview-comparisons.service.ts:99-102 | Where the check refuses or anything throws, nothing is recorded and the clean-up remains |
| Attachments.SessionAttachmentsService.Remove | apps/api/src/attachments/session-attachments.service.ts:85-109 | Objects go where their deletion succeeds, and metadata goes exactly for those |
| Attachments.SessionAttachmentsService.SaveFiles | apps/api/src/attachments/session-attachments.service.ts:33-61 | The loop saves rows and objects in order up to the first failure and takes back the object whose row failed |
| Attachments.SessionAttachmentsService.Create | apps/api/src/attachments/session-attachments.service.ts:28-67 | Invalid files change nothing; otherwise the store is the specified one and the rows are returned exactly when all files were saved |
| Attachments.RollbackRestores | apps/api/src/attachments/session-attachments.service.ts:57-66 | A failed create restores the store exactly when the deletes that it needs succeed |
| Attachments.FailureKeepsTogether | apps/api/src/attachments/session-attachments.service.ts:57-108 | After a failure no row lacks its object unless the deletion of metadata failed, and no object lacks a row unless its own deletion failed |
| Attachments.SuccessKeepsTogether | apps/api/src/attachments/session-attachments.service.ts:32-62 | A successful create adds exactly the rows of its files with their objects |
| Attachments.ValidMeans | apps/api/src/attachments/session-attachments.service.ts:28-32 | At most four files of one byte to 5 MB are taken, each of the type that its bytes show |
| Attachments.RowMeans | apps/api/src/attachments/session-attachments.service.ts:33-56 | What metadata is kept of a file, and under which key its object lies |
| DesktopManager.ManagerSafety | packages/local-agent/src/desktop/desktop-agent-manager.ts:82-433 | On every interleaving of operations and callbacks: at most one live runtime, running exactly when one is live, no runtime means stopped or error and not busy, a live runtime excludes pairing, the profile in memory is the saved one and good, readiness is known of configured projects only |
| DesktopManager.RunKeeps | packages/local-agent/src/desktop/desktop-agent-manager.ts:415-433 | Every run keeps the engine and profile invariants between and within operations |
| DesktopManager.DeadReportsIgnored | packages/local-agent/src/desktop/desktop-agent-manager.ts:277-306 | With no runtime and none being started, a report of any earlier generation changes nothing |
| DesktopManager.ReportsFromLive | packages/local-agent/src/desktop/desktop-agent-manager.ts:277-283 | While a runtime lives only its own reports are taken, and they change status, busy and error only |
| DesktopManager.ForeignNeverRefused | packages/local-agent/src/desktop/desktop-agent-manager.ts:344-346 | On runs from a good profile the refusal of another agent's project is never reached, and a start that gets that far runs |
| DesktopManager.StartOfStored | packages/local-agent/src/desktop/desktop-agent-manager.ts:82-90 | A stored profile is not checked: starting it runs exactly when its keys carry its prefix |
| DesktopManager.RepairingKeepsProjects | packages/local-agent/src/desktop/desktop-agent-manager.ts:126-147 | Pairing again keeps every project, changes keys only, gives them the new prefix, and forgets readiness |
| DesktopManager.RekeyedGood | packages/local-agent/src/desktop/desktop-agent-manager.ts:131-134 | The new keys are unique exactly when their random parts are |
| DesktopManager.WithProjectGood | packages/local-agent/src/desktop/desktop-agent-manager.ts:161-186 | Configuring a project keeps keys and paths unique and prefixed, even when a random part repeats |
| DesktopManager.ConfiguringKeepsOthers | packages/local-agent/src/desktop/desktop-agent-manager.ts:176-179 | Configuring a project keeps exactly the projects with another key |
| DesktopManager.ClaimsBounded | packages/local-agent/src/desktop/desktop-agent-manager.ts:115-127 | On every run the claims for one code are spaced by its polling interval and lie between its issue and its expiry, so their number is bounded by its life |
| DesktopAgent.DesktopAgentManager.BeginOperation | packages/local-agent/src/desktop/desktop-agent-manager.ts:82-307 | The first segment of each operation computes the specified state, and leaves a manager that is safe as after any run: at most one live runtime, running exactly while one lives, idle when none does, the profile in memory the saved one |
| DesktopAgent.DesktopAgentManager.EndOperation | packages/local-agent/src/desktop/desktop-agent-manager.ts:82-307 | The last segment of each operation, successful or failed, computes the specified state and leaves the manager safe in the same sense |
| DesktopAgent.DesktopAgentManager.ReportStatus | packages/local-agent/src/desktop/desktop-agent-manager.ts:277-283 | A callback of any started generation is ignored unless its generation is current, and leaves the manager safe |
| DesktopEffects.BeginsExactly | packages/local-agent/src/desktop/desktop-agent-manager.ts:82-307 | Every operation but polling and starting: the first reason to refuse it, with a change to the error alone, and otherwise that it waits, or is done at once where nothing is awaited |
| DesktopEffects.StartsExactly | packages/local-agent/src/desktop/desktop-agent-manager.ts:244-253 | A start goes on exactly if the agent is not running, not pairing, initialised, paired and has a project; it then shows that it starts, under a new generation |
| DesktopEffects.PollsExactly | packages/local-agent/src/desktop/desktop-agent-manager.ts:115-127 | A poll claims the pairing exactly if it is pending, editable, not expired and due; an expired one is dropped |
| DesktopEffects.RemovalRemoves | packages/local-agent/src/desktop/desktop-agent-manager.ts:188-201 | Removing a project saves and shows exactly the others, in order and under the same connection, and forgets its readiness; if saving fails nothing changes |
| DesktopEffects.ConfigurationSaved | packages/local-agent/src/desktop/desktop-agent-manager.ts:161-187 | Configuring a project puts it last, under the key of the project at its path or a new one, keeps the others in order, forgets all readiness, and changes nothing if it is invalid or not saved |
| DesktopEffects.ReadinessRecorded | packages/local-agent/src/desktop/desktop-agent-manager.ts:218-242 | A readiness run records its result for its project alone, unless some project belongs to another agent |
| DesktopEffects.ClaimConnects | packages/local-agent/src/desktop/desktop-agent-manager.ts:126-147 | A claim saves the received connection at the addresses of the pairing with every project under a new key, ends the pairing, and changes nothing if the profile is invalid |
| DesktopEffects.OtherEnds | packages/local-agent/src/desktop/desktop-agent-manager.ts:82-307 | What initialising, beginning a pairing, a pending poll, tool checks, a login and a stop change when their calls have ended |
| DesktopEffects.StartMeans | packages/local-agent/src/desktop/desktop-agent-manager.ts:254-293 | A start runs under its generation exactly if every project key carries the prefix of the connection |
| DesktopEffects.FailureMeans | packages/local-agent/src/desktop/desktop-agent-manager.ts:286-293 | A failed operation changes the error alone; a failed start also shows it and spends its generation; a code that the server no longer knows ends the pairing |
| DesktopEffects.ValidMeans | packages/local-agent/src/desktop/desktop-profile-store.ts:8-26 | What is asked of a profile before it is saved |
| PairingLimiter.AgentPairingLimiter.AssertAllowed | apps/api/src/agent-onboarding/agent-pairing-limiter.ts:12-25 | One call expires old buckets, refuses a new one in a full table, counts the attempt, and leaves the other table alone |
| PairingLimiter.DropExpired | apps/api/src/agent-onboarding/agent-pairing-limiter.ts:14-16 | The expiry loop keeps exactly the unexpired buckets |
| PairingLimiter.TableBounded | apps/api/src/agent-onboarding/agent-pairing-limiter.ts:17-21 | No run lets a table grow beyond 10,000 buckets |
| PairingLimiter.CallMeans | apps/api/src/agent-onboarding/agent-pairing-limiter.ts:12-25 | One call, in full: expired buckets go, a known key is charged, a new one opens a bucket of ten minutes unless 10,000 are open, and it is admitted while its bucket is within the limit |
| PairingLimiter.AdmittedMeans | apps/api/src/agent-onboarding/agent-pairing-limiter.ts:12-25 | Exactly the calls of the key in the closed interval that did not throw are counted |
| PairingLimiter.BucketLimit | apps/api/src/agent-onboarding/agent-pairing-limiter.ts:17-24 | With a monotone clock a bucket lasts ten minutes and admits at most the limit |
| PairingLimiter.TwiceTheLimit | apps/api/src/agent-onboarding/agent-pairing-limiter.ts:12-25 | In any ten minutes, ends included, a key is admitted at most twice its limit |
| PairingLimiter.FewCallsAdmitted | apps/api/src/agent-onboarding/agent-pairing-limiter.ts:17-24 | A key called no more often than its limit is turned away only while the table is full |
| PairingLimiter.DesktopClaims | apps/api/src/agent-onboarding/agent-onboarding.service.ts:40-54 | On every run a code that lives at most ten minutes on the desktop's clock, with a polling interval of at least five seconds, is claimed at most 120 times |
| PairingLimiter.DesktopNeverExhausted | apps/api/src/agent-onboarding/agent-onboarding.service.ts:58-65 | Where claims reach the server late and at most once each, and are charged only while the code lives on the clock of the server, the bucket of 125 never turns the desktop away, whatever the difference of the clocks and whatever others call |
| HarnessQueue.QueueIsSequence | packages/local-agent/src/harness/codex-harness.adapter.ts:552-617 | On every interleaving the k-th next gets the k-th accepted event or, after closing, the end or failure; buffered events and waiting calls never meet |
| HarnessQueue.RunKeeps | packages/local-agent/src/harness/codex-harness.adapter.ts:552-617 | The refinement invariant holds on every run |
| HarnessQueue.ResultsStay | packages/local-agent/src/harness/codex-harness.adapter.ts:586-613 | A finished call keeps its result |
| HarnessQueue.FailureOvertakesClose | packages/local-agent/src/harness/codex-harness.adapter.ts:603-611 | A waiting call answered by a close throws if the failure comes before its continuation, and ends otherwise |
| HarnessQueue.CallMeans | packages/local-agent/src/harness/codex-harness.adapter.ts:588-613 | A call gets the accepted event of its number, the failure or the end, or waits |
| HarnessQueue.PushMeans | packages/local-agent/src/harness/codex-harness.adapter.ts:558-570 | A push is accepted exactly while the queue is open, and goes to the first waiting call or the buffer |
| HarnessQueue.EndsMean | packages/local-agent/src/harness/codex-harness.adapter.ts:572-584 | Closing and failing answer every waiting call with the end; a failure is kept |
| HarnessQueue.AgentHarnessEventQueue.PushEvent | packages/local-agent/src/harness/codex-harness.adapter.ts:558-570 | A push goes to the first waiting call, or the buffer, or nowhere once closed |
| HarnessQueue.AgentHarnessEventQueue.NextEvent | packages/local-agent/src/harness/codex-harness.adapter.ts:588-605 | A call takes a buffered event, the failure, the end, or waits |
| HarnessQueue.AgentHarnessEventQueue.ReleaseWaiters | packages/local-agent/src/harness/codex-harness.adapter.ts:574-576 | The loop answers every waiting call with the end |
| HarnessOutput.SplitJoins | packages/local-agent/src/harness/codex-harness.adapter.ts:134-135 | Cutting into lines loses nothing and leaves no newline in a line |
| HarnessOutput.LinesOfWhole | packages/local-agent/src/harness/codex-harness.adapter.ts:127-151 | For every chunking, mixed with error output, the lines handled are those of the whole text, except a blank unfinished one |
| HarnessOutput.OutputsAreMessages | packages/local-agent/src/harness/codex-harness.adapter.ts:71-110 | The output events are the messages as progress and then the last one again, final after exit code 0 and progress otherwise |
| HarnessOutput.OnlyErrorsBeforeRepeat | packages/local-agent/src/harness/codex-harness.adapter.ts:93-114 | Between the last message and its repetition there is only error output, and the end follows |
| HarnessOutput.RawPassesThrough | packages/local-agent/src/harness/codex-harness.adapter.ts:127-131 | A process whose output is not read as JSON passes its chunks through in order, and then its end |
| HarnessOutput.TrimMeans | packages/local-agent/src/harness/codex-harness.adapter.ts:147-149 | Trimming takes off exactly the white space at both ends, and a text is blank exactly if nothing is left |
| HarnessOutput.FinishMeans | packages/local-agent/src/harness/codex-harness.adapter.ts:95-114 | The end of a process repeats its last message, unless there is none or it is empty, as final exactly for exit code 0, and says that it is done; a second end adds nothing |
| HarnessOutput.CodexRun.Stdout | packages/local-agent/src/harness/codex-harness.adapter.ts:127-139 | The handler appends, splits, keeps the last piece and handles the others in order |
| HarnessOutput.CodexRun.Close | packages/local-agent/src/harness/codex-harness.adapter.ts:147-151 | Closing handles a last non-blank line and settles once |
| AgentStream.StreamIsSequence | packages/local-agent/src/harness/codex-harness.adapter.ts:64-152 | On every interleaving of a process with its consumer the k-th call gets the k-th event of the process; later calls wait until the process has settled |
| AgentStream.ConsumerGetsRun | packages/local-agent/src/harness/codex-harness.adapter.ts:552-617 | A consumer of a process that ends gets exactly the events of that run in order and then the end, whatever comes later; nothing is thrown |
| AgentStream.BrokenFails | packages/local-agent/src/harness/codex-harness.adapter.ts:115-125 | A process that could not be run fails the queue, after what it had written |
| Conversation.MergeConservesText | apps/web/src/lib/session-conversation.ts:218-241 | Merging conserves the text, line by line |
| Conversation.MergeDone | apps/web/src/lib/session-conversation.ts:218-241 | Merging leaves no mergeable neighbours and is idempotent |
| Conversation.MergeKeepsOthers | apps/web/src/lib/session-conversation.ts:224-232 | User messages, progress and messages with attachments stay as they are, in order |
| Conversation.MergeableMeans | apps/web/src/lib/session-conversation.ts:224-232 | Two messages of the agent merge exactly if they have one tone and neither has attachments |
| Conversation.MergeAdjacentAgentOutput | apps/web/src/lib/session-conversation.ts:218-241 | The merge loop computes the specified items |
| Conversation.PromoteMeans | apps/web/src/lib/session-conversation.ts:243-265 | Promotion drops exactly the progress items that the next item repeats as final message |
| Conversation.RepeatsMeans | apps/web/src/lib/session-conversation.ts:243-265 | A final message repeats the agent's progress of the same text just before it |
| Conversation.PromoteFinalAgentMessages | apps/web/src/lib/session-conversation.ts:243-265 | The promotion loop computes the specified items |
| Conversation.RowsFlat | apps/web/src/lib/session-conversation.ts:26-56 | Grouping flattens back to its input |
| Conversation.RowsProper | apps/web/src/lib/session-conversation.ts:26-56 | Every progress item is in a group, and no two groups are adjacent |
| Conversation.RowsWorking | apps/web/src/lib/session-conversation.ts:50-55 | While the agent works its latest step stands alone after the rows of the items before it |
| Conversation.ProperUnique | apps/web/src/lib/session-conversation.ts:33-48 | The rows are the only maximal grouping of their items |
| Conversation.GroupConversationProgress | apps/web/src/lib/session-conversation.ts:26-56 | The grouping loop computes the specified rows |
| RunConversation.FinalMessageShownOnce | apps/web/src/lib/session-conversation.ts:58-265 | For every exit code and every chunking, a run shows each message once exactly when it succeeded and no error shows between the last message and its repetition; otherwise the last shows twice. After exit code 0 only the last is a message, after any other none is |
| RunConversation.RunShownInConversation | apps/web/src/lib/session-conversation.ts:58-83 | Among other items, sorted and merged, where the items of a run stand together they show its messages in the same way, apart from the items before and after exactly if these do not merge with its first and last item |
| RunConversation.RunTogether | apps/web/src/lib/session-conversation.ts:58-81 | A run recorded in order between two times, with no other message or event between them, stands together among the sorted items, which without it are the same |
| RunConversation.RunShownInSession | apps/web/src/lib/session-conversation.ts:58-83 | So such a run shows its messages as it does alone, and the rest of the conversation is that without the run, exactly if nothing merges at its ends |
| RunConversation.ShownTwice | apps/web/src/lib/session-conversation.ts:243-265 | A run of one message line and then an error line that is worded for the user shows that message twice |
| RunConversation.BuildSessionConversation | apps/web/src/lib/session-conversation.ts:58-83 | The conversation is the merge of the promotion of the visible items in time order |
| RunConversation.ConversationText | apps/web/src/lib/session-conversation.ts:58-83 | The conversation shows, in time order, the text of every visible item that promotion does not drop |
| RunConversation.ItemsAre | apps/web/src/lib/session-conversation.ts:58-216 | An item is in the conversation before promotion exactly if it shows something and shows, field by field, a message of the user, a message of the agent, or a recorded event: output as progress or message, errors as they are worded, failed checks, and an exit code other than 0 |
| RunConversation.UserMessagesShown | apps/web/src/lib/session-conversation.ts:58-83 | The user's items of the conversation are exactly the messages of the user that show something, in time order, each with its identifier, its trimmed text or that of its prompt, its time, attachments and selections; none is merged, and nothing of the agent is among them |
| AgentRegistry.RunKeeps | apps/api/src/agent-gateway/connected-agents.registry.ts:12-63 | On every run sockets and agents are mutually inverse with equal domains, and no project key is held by two agents |
| AgentRegistry.RefusalIsReal | apps/api/src/agent-gateway/connected-agents.registry.ts:17-37 | A refused registration changes nothing and names a real conflict |
| AgentRegistry.RegistrationKeeps | apps/api/src/agent-gateway/connected-agents.registry.ts:39-51 | An accepted registration connects the agent to the socket and keeps its capabilities, models, projects and owner; an empty owner counts as none |
| AgentRegistry.UnregistrationDrops | apps/api/src/agent-gateway/connected-agents.registry.ts:53-63 | A socket that is gone takes exactly its agent along |
| AgentRegistry.LookupUnordered | apps/api/src/agent-gateway/connected-agents.registry.ts:87-97 | The holder of a project does not depend on the order of the map |
| AgentRegistry.LookupMeans | apps/api/src/agent-gateway/connected-agents.registry.ts:69-97 | A lookup gives a socket exactly when its agent has this identifier, or nobody has it and its agent offers this project |
| AgentRegistry.OffersMeans | apps/api/src/agent-gateway/connected-agents.registry.ts:65-98 | An agent offers exactly the projects that it has registered |
| AgentRegistry.DisconnectTouchesOne | apps/api/src/agent-gateway/connected-agents.registry.ts:53-63 | A disconnection touches no agent connected by another socket |
| AgentRegistry.LateDisconnectHarmless | apps/api/src/agent-gateway/agent.gateway.ts:179-184 | The late disconnection of a dropped socket changes nothing, whatever happened since |
| AgentRegistry.EmptySocketBreaks | apps/api/src/agent-gateway/connected-agents.registry.ts:15-19 | With an empty socket identifier the maps stop being inverse |
| AgentRegistry.EmptyAgentBreaks | apps/api/src/agent-gateway/connected-agents.registry.ts:20-24 | With an empty agent identifier a socket can be registered twice and the maps stop being inverse |
| AgentRegistry.NamedExactly | apps/api/src/agent-gateway/connected-agents.registry.ts:12-51 | From good maps, an accepted registration leaves maps that every next step keeps inverse exactly if both its identifiers are not empty |
| AgentRegistry.ConnectedAgentsRegistry.RegisterAgent | apps/api/src/agent-gateway/connected-agents.registry.ts:12-51 | Registration returns the specified refusal or updates the three maps |
| AgentRegistry.ConnectedAgentsRegistry.UnregisterSocket | apps/api/src/agent-gateway/connected-agents.registry.ts:53-63 | Unregistration drops a socket with its agent from all maps |
| AgentRegistry.ConnectedAgentsRegistry.FindSocketId | apps/api/src/agent-gateway/connected-agents.registry.ts:69-97 | The lookup loop computes the specified socket |
| PreviewBridge.BridgeSafety | apps/web/src/lib/preview-selection-bridge.ts:41-146 | On every run: selecting only when ready and allowed, one timer exactly while connecting, at most ten connect posts for a nonce, modes alternate with matching nonces, no more deliveries than switch-ons |
| PreviewBridge.TurnsCount | apps/web/src/lib/preview-selection-bridge.ts:86-133 | Every off answers an on and every delivery uses up an off of its own |
| PreviewBridge.DeliveredFromPreview | apps/web/src/lib/preview-selection-bridge.ts:128-132 | Only selections of the preview's own origin are delivered |
| PreviewBridge.SelectionDelivered | apps/web/src/lib/preview-selection-bridge.ts:110-133 | A selection is delivered exactly if it comes from the page under the current nonce while the mode is on and is of the page's own origin; the mode goes off first |
| PreviewBridge.AnswersHeard | apps/web/src/lib/preview-selection-bridge.ts:118-127 | The page's answer makes the bridge ready and ends its timer; a cancellation switches the mode off; anything else is ignored |
| PreviewBridge.TimerRetries | apps/web/src/lib/preview-selection-bridge.ts:76-84 | A timer connects again until ten attempts were made, and then the preview is unsupported |
| PreviewBridge.LoadConnects | apps/web/src/lib/preview-selection-bridge.ts:61-74 | A loaded page starts the handshake anew under a new nonce, after mode and timer have ended |
| PreviewBridge.AttachConnects | apps/web/src/lib/preview-selection-bridge.ts:41-59 | Attaching a frame ends what ran in the old one, and connects exactly if there is a preview to select in |
| PreviewBridge.UserSwitches | apps/web/src/lib/preview-selection-bridge.ts:86-108 | The mode is switched on and off while the page is ready, and off with the Escape key |
| PreviewBridge.PreviewSelectionBridge.Attach | apps/web/src/lib/preview-selection-bridge.ts:41-59 | Attaching stops selection, clears the timer, replaces the frame and connects |
| PreviewBridge.PreviewSelectionBridge.HandleMessage | apps/web/src/lib/preview-selection-bridge.ts:110-133 | A message is heard only from the frame, origin and nonce, and handled by its type |
| SessionLifecycle.LifecycleSafety | apps/api/src/sessions/session-state-machine.ts:50-152 | On every run a failed session has an error and a ready one none, a closed one has its time, and review states come only after waiting for validation |
| SessionLifecycle.RunClimbs | apps/api/src/sessions/session-state-machine.ts:24-48 | Preparation climbs a ladder and is never entered again |
| SessionLifecycle.EventEnters | apps/api/src/sessions/session-state-machine.ts:50-178 | An applied event keeps the state or enters another through one of its listed entrances |
| SessionLifecycle.ProgressMoves | apps/api/src/sessions/session-state-machine.ts:24-35 | Progress is accepted exactly along the twelve listed moves; it sets the state and the message |
| SessionLifecycle.ReadyStoresPreview | apps/api/src/sessions/session-state-machine.ts:54-61 | A ready event is accepted exactly from the last stage of preparation and stores the preview address |
| SessionLifecycle.RecoveryStoresPreview | apps/api/src/sessions/session-state-machine.ts:62-84 | A recovery always stores the preview address; an interrupted preparation is ready, an interrupted operation has failed |
| SessionLifecycle.DoneMeans | apps/api/src/sessions/session-state-machine.ts:85-111 | A failed run fails the session; a successful one of a running agent leads to the checks, or without changes to the state of the latest validation, and of any other is refused |
| SessionLifecycle.ResultsMean | apps/api/src/sessions/session-state-machine.ts:112-128 | What a closed event, an error and a validation result write, and which run is recorded |
| SessionLifecycle.StepsMean | apps/api/src/sessions/session-close.service.ts:24-41 | What the begin and end of a close and of a review request write, whatever happened meanwhile |
| SessionLifecycle.EventsKeepClosedAt | apps/api/src/sessions/session-state-machine.ts:117-122 | No agent event alters a closing time that is set |
| SessionLifecycle.RunKeepsClosedAt | apps/api/src/review-requests/create-review-request.use-case.ts:127-133 | Nor does a run without the end of a close, when the reviews in progress read the same time |
| SessionLifecycle.ClosedAtAlteredBy | apps/api/src/sessions/session-close.service.ts:33-41 | In any state a step alters the closing time exactly when it is a closed event without one set, the end of a close in progress at another time, or the end of a review in progress that read another |
| SessionLifecycle.ClosedAtKept | apps/api/src/review-requests/create-review-request.use-case.ts:120-134 | Over any run the closing time stays as it is throughout exactly when no step is of that kind where it is taken |
| SessionLifecycle.CloseResetsClosedAt | apps/api/src/sessions/session-close.service.ts:33-41 | On the run of a close whose closed event comes before its end, the end sets the closing time anew |
| SessionLifecycle.ReviewUndoesClose | apps/api/src/review-requests/create-review-request.use-case.ts:120-134 | A review request that ends after a close reopens the session without closing time |
| SessionLifecycle.ClosedLeftBy | apps/api/src/sessions/session-state-machine.ts:86-152 | In any state of the session, of its closes and of its reviews, a closed session is left exactly by an error, a failed agent run, a validation result or the end of a review in progress |
| SessionLifecycle.StaysClosed | apps/api/src/review-requests/create-review-request.use-case.ts:120-134 | A closed session stays closed throughout a run exactly when the run has no error, failed agent run, validation result, or end of a review in progress |
| SessionLifecycle.SettledKeepsTime | apps/api/src/sessions/session-close.service.ts:24-41 | With no close in progress a session that so stays closed keeps its closing time |
| SessionLifecycle.RecoveryIdempotent | apps/api/src/sessions/session-state-machine.ts:62-84 | Recovering twice is recovering once |
| SessionLifecycle.WaitingMeansPassed | apps/api/src/validation/validation.policy.ts:10-39 | Unless progress announces it, a session waits for validation only after its latest run passed, and exactly then may get a review request |
| SessionLifecycle.StepVouched | apps/api/src/sessions/session-events.service.ts:34-61 | A step keeps that, and an announcement breaks it exactly from running checks whose latest run did not pass |
| SessionLifecycle.FailureMeans | packages/shared-contracts/src/protocol/events.ts:208-219 | There is no failure exactly when all four checks passed, and the failed checks are those that did not |
| SessionLifecycle.SessionEvents.Apply | apps/api/src/sessions/session-events.service.ts:24-74 | The event switch and the lookup of the state to resume write the run and the session that the state machine specifies, or nothing when the transition is invalid |
| ProjectCreation.FormAgreesWithServer | apps/web/src/lib/project-creation.ts:33-120 | If the form can create on a snapshot with unique keys and trimmed values, the server's validation rejects nothing |
| ProjectCreation.FormAgreesForCleanNames | apps/api/src/projects/projects.service.ts:493-539 | If the published names are trimmed and not empty and the keys are unique, the server refuses nothing that the form can create |
| ProjectCreation.OfferAccepted | apps/api/src/projects/projects.service.ts:493-539 | For every offer, if no published name becomes another one of its kind when trimmed: the server accepts exactly if trimming leaves repository, branch and key as they are, the key is first published by an agent of the user for this repository, and the selection stays readable for the first agent that the key names |
| ProjectCreation.UniqueOfferAccepted | packages/shared-contracts/src/protocol/ui.ts:127-138 | With unique keys the server accepts an offer exactly if trimming leaves its values as they are |
| ProjectCreation.CleanOfferAccepted | apps/api/src/projects/projects.service.ts:516-539 | An offer of trimmed values is accepted exactly if its key is first published by an agent of the user for this repository and is not shadowed, for any keys and identifiers |
| ProjectCreation.ShadowedOffer | apps/api/src/agent-gateway/agent-execution-capabilities.service.ts:17-70 | With keys published once, an offer of trimmed values is accepted exactly if the first agent that is called like the key or publishes it does publish it, or has no models, or has the selected model with the selected effort |
| ProjectCreation.CanCreateMeans | apps/web/src/lib/project-creation.ts:97-106 | What the form's offer says of repository, branch, project, model and reasoning |
| ProjectCreation.SameRepository | apps/api/src/projects/projects.service.ts:426-448 | The form's repository is that of the installation that the server picks, with the same branches |
| ProjectCreation.OptionSource | apps/api/src/projects/projects.service.ts:311-331 | Every option of the form is a project of a snapshot that the user may see |
| ProjectCreation.OptionsAre | apps/api/src/projects/projects.service.ts:311-331 | The form offers exactly the projects of agents that are the user's or nobody's, in listed repositories |
| ProjectCreation.RepositoriesAre | apps/api/src/projects/projects.service.ts:285-309 | Its repositories are exactly those of all installations, with their branches |
| ProjectCreation.ProposedRepository | apps/web/src/lib/project-creation.ts:42-60 | The proposed repository is that of the one project handed over, or none; without a hand-over the one repository that has projects, or else the only one |
| ProjectCreation.ProposedKey | apps/web/src/lib/project-creation.ts:62-71 | The proposed project is the one handed over, if it is in the repository, or else the only one there |
| ProjectCreation.FormShows | apps/web/src/lib/project-creation.ts:72-98 | What the user has edited comes before what is proposed, value by value |
| ProjectCreation.KeyLookups | apps/api/src/agent-gateway/agent-execution-capabilities.service.ts:17-30 | With unique keys every lookup of a key finds the same snapshot and project |
| ProjectCreation.SelectionAccepted | apps/api/src/agent-gateway/agent-execution-capabilities.service.ts:52-70 | A model and reasoning level that the form offers are accepted |
| ProjectCreation.InputRefused | apps/api/src/projects/projects.service.ts:426-514 | Which of the input, installation, repository and branch errors the server gives, in this order |
| ProjectCreation.AgentRefusals | apps/api/src/projects/projects.service.ts:516-539 | Which of the agent, owner, repository, model and effort errors it gives, in this order |
| ProjectCreation.ProposedBranch | apps/web/src/lib/project-creation.ts:122-127 | The proposed branch is one of the repository's exactly when a default is listed or only one branch exists; the project's default comes first |
| ProjectCreation.ProposedEffort | apps/web/src/lib/project-creation.ts:83-86 | The proposed reasoning level is one of the model's exactly when its default is listed or it has only one |
| ProjectCreation.PaddedNameRefused | packages/shared-contracts/src/protocol/events.ts:22-49 | Agents publish keys, models and efforts that trimming changes: the form offers them, and the server refuses by the first of the three that is changed |
| ProjectCreation.AgentIdShadowsKey | apps/api/src/agent-gateway/agent-execution-capabilities.service.ts:18-23 | When a project key is the identifier of another agent, the form offers the project and the server refuses it, because it looks at the models of the agent with that identifier |
| ProjectCreation.DuplicateKeyRefused | apps/api/src/projects/projects.service.ts:516-533 | When one agent publishes a key twice, first for a repository that the user cannot reach, the form offers the other project and the server refuses it |
| BoundedLogs.CompactLength | packages/local-agent/src/checks/validation-log.ts:8-28 | Compacted logs have length min(input, maximum) exactly when the input fits or the labels leave room |
| BoundedLogs.DiagnosticsMean | packages/local-agent/src/checks/validation-log.ts:14-19 | The diagnostics are exactly the trimmed diagnostic lines of the log, each once, cut to 1,000 characters |
| BoundedLogs.UniqueMeans | packages/local-agent/src/checks/validation-log.ts:18-18 | Every line stays once, in the order of first occurrence |
| BoundedLogs.CompactShape | packages/local-agent/src/checks/validation-log.ts:13-27 | Compacted logs are the first two fifths of the maximum for the diagnostics under their label, the other label, and the end of the log for the rest |
| BoundedLogs.CompactIdempotent | packages/local-agent/src/checks/validation-log.ts:8-28 | From a maximum of 114 on the length is min(input, maximum) and compaction is idempotent |
| BoundedLogs.NoRoomAt113 | packages/local-agent/src/checks/validation-log.ts:22-27 | At 113 full diagnostics leave no room and the logs grow |
| BoundedLogs.RoomThreshold | packages/local-agent/src/checks/validation-log.ts:8-28 | If some line of 114 to 1000 characters is diagnostic, every log leaves room for its end exactly when the maximum is at least 114 |
| BoundedLogs.BufferBounded | packages/local-agent/src/checks/host-check-command-executor.ts:68-73 | For every chunk stream the buffer stays within the maximum and ends as the stream does |
| BoundedLogs.SurvivingMeans | packages/local-agent/src/checks/validation-log.ts:20-27 | How much of the end survives: three fifths of the maximum, less 68 characters |
| BoundedLogs.HostCheckCommandExecutor.AppendLogs | packages/local-agent/src/checks/host-check-command-executor.ts:68-70 | A chunk is appended and the whole compacted |
| BoundedLogs.GitOutput.OnData | packages/local-agent/src/git/diff.service.ts:176-187 | After every chunk exactly the first bytes up to the limit are kept, and truncation is reported exactly on overflow |
| BoundedLogs.TruncationMeans | packages/local-agent/src/git/diff.service.ts:176-187 | Truncation means that the total exceeds the limit or an empty chunk arrived at the limit |
| BoundedLogs.TruncatedIffTooLong | packages/local-agent/src/git/diff.service.ts:176-187 | For non-empty chunks, however split, truncation is reported exactly when the total exceeds the limit |

## Left out

- Inflating, CRC-32, hashing, UUIDs and random bytes are parameters: the inflater is any cut of some byte sequence with a failure flag and a count of bytes read, identifiers are fresh values chosen by the steps.
- Numbers in selections are integers: fractions, exponents and negative zero of JSON are not modelled; the URL grammar of page addresses is a predicate.
- Selections are printed with their keys in the order of the type; other orders of an incoming object are read but not printed.
- The parser of the modelled JSON has no fractions or exponents, so texts that hold them count as unreadable.
- Database transactions are atomic steps that take effect or throw; the locked transaction of a comparison capture is one step.
- ComparisonProtocol.NothingLeaks: assumes that the deletions of a clean-up succeed; what is left when they fail is the subject of the attachments module.
- Storage calls that fail are taken to have no effect; which calls fail is an input.
- Upload validation beyond the count, size and type agreement: the type shown by the bytes is a field of the upload.
- Clean-up of session members, messages and other rows around attachments is not modelled.
- DesktopManager.ManagerSafety: the random parts of the keys made by one pairing are taken to differ; without that, `DesktopManager.RekeyedGood` says exactly which property is lost.
- Of the desktop agent: tool and model discovery, Docker requirements and the warnings they add, redaction of messages, cancelling a login; saving a profile is atomic, and a runtime whose start fails is not running.
- ProjectCreation.OfferAccepted: two published names of one kind that trimming makes equal are set aside; the server would then take the one for the other.
- PairingLimiter.DesktopClaims: assumes that the code expires within ten minutes of its issue on the desktop's own clock; PairingLimiter.DesktopNeverExhausted does not.
- RunConversation.RunShownInSession: the sentence about a non-zero exit code is taken to be not empty, as the program's is.
- The order of failures within one desktop operation is an input; each operation has its segments before and after its awaited calls, and readings of the clock within one segment are equal.
- The limiter's clock is monotone, and calls for one key use one limit, as the callers do. The clocks of the desktop and the server differ by a constant.
- Reading a line of agent output as JSON, and the wording of errors, are parameters; text is a sequence of characters, so decoding of UTF-8 across chunks is not part of the model.
- The relay of agent events from the desktop to the browser, with its redaction, is taken to record each event once and in order.
- The prompt shown for a user's message is read by a parameter here; the parser itself is modelled in its own module.
- Timestamps of conversation items are integers in place of ISO strings.
- A preview frame without a window, or a document without one, would drop posts; the model posts whenever a frame is attached. Listeners are not told apart from other effects.
- Capabilities and labels of agents, readiness of projects, and the parts of the project service that store or share projects.
- The diagnostic test on a log line is a parameter; 40 percent of the maximum is exact arithmetic, which agrees with the rounded product for the lengths in use. Splitting at carriage returns is left to trimming, which removes them.
- The text of git output after the bytes were collected, the error stream, and the sections of a rendered diff.
- Docker, processes, tunnels, HTTP, sockets and React are input and output around what is modelled.
