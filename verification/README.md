# A verified model of the Xcelerate agents

Ranks of a parallel program send work to accelerators through three kinds of agent. A *bridge
agent* serves the ranks of one node, an *accelerator agent* serves a node that has devices, and a
*virtualization agent* runs kernels on them. They exchange multipart ZeroMQ messages and describe
resources as text; host files are JSON. This project models the parts in which that can go wrong
and proves, for all inputs and for all interleavings, what they keep.

`dafny verify dfyconfig.toml` checks everything. The files belong together as follows.

| part | files |
|---|---|
| JSON text: values, grammar, parser, printer, round trip | `Bytes`, `Utf8`, `JsonValue`, `JsonGrammar`, `JsonReader`, `JsonLanguage`, `JsonParser`, `JsonMeaning`, `JsonWriter`, `JsonPrinted`, `JsonRoundTrip`, `JsonMulti` |
| Transactions of the virtualization agent | `TxStore`, `Pipeline`, `PipelineProof`, `PipelineSteps`, `PipelineRuns`, `VirtAgent` |
| Barriers and semaphore | `PackedBarrier`, `Cyclic`, `ButterflyBarrier`, `Semaphore` |
| Worker pool on bounded queues | `WorkerPool` |
| Relay between bridge and accelerator agents | `PendingMessages`, `Relay`, `RelayProof`, `RelaySends`, `RelayRuns`, `RelayRecords`, `RelayAgents`, `Finalize` |
| Message framing and the client's fixed indices | `Framing`, `ClientFrames` |
| Resource descriptions as text | `ResourceText` |

## How it is modelled

Objects whose methods change their fields are classes (`JsonParser`, `PacketStore`, `Agent`,
`Barrier`, `SemaphoreBase`, `BoundedQueue`, `Registry`, `BridgeAgent`, `AcceleratorAgent`,
`ZmsgBuilder`, `CacheRegistry`). Each method is proved against a function on values, and the
theorems are about those functions. Concurrent parts are state machines: a state, a step function
with one action per atomic operation or per handler, and `Run`, which folds it over any sequence of
actions; an action that is not enabled changes nothing. Fields such as `replies`, `rounds`, `sent`
or `made` in these states only record what has happened, so that a theorem can speak of it.

Bytes are numbers from 0 to 255, machine words are numbers with the wrap-around written out, and
masks and shifts are `%`, `/` and `*` by powers of two. Where the original throws or is undefined,
a function gives `None`, a method gives `false` or `None`, and a state machine sets `fault` or
`thrown`.

## What is not as the original intends

Six properties hold only under a condition. Each has a run or an input that shows the failure, and
a theorem that says exactly when it occurs.

* **Packed barrier.** The last arrival flips the phase bit and then adds the missing arrivals back.
  If that thread has dropped out, everybody else may arrive in the new phase before it does so; its
  addition then flips the bit itself and nobody adds the base again, so the next phase never ends
  (`PackedBarrier.HangingRunHangs`). A round can be carried to its end if and only if no reload has
  found that all have arrived already (`PromptExactly`, `ReloadKeeps`). No `wait` ever returns early,
  even then, and without `arrive_and_drop` it cannot happen (`WithoutDropsPrompt`).
* **Semaphore.** A thread that has taken two from the back buffer and not yet given them back makes
  the buffer look empty to threads that are woken meanwhile. A sleeper can stay asleep although its
  token has been released, and later releases do not wake it (`Semaphore.StrandingRunStrands`). It
  takes five threads and releases of three, and no less (`StrandsExactly`).
* **Claims.** `add_claim` does not replace a claim and `update_claim` does not replace its
  accelerator id. A second claim of a rank under the same tag keeps the old id and takes the new
  node (`RelayRuns.ReusedTagMisroutes`). After any answer the claim is routed if and only if its own
  id was sent to the answering node and has been granted there (`AnswerRoutesExactly`). The client
  library takes a fresh key for every claim.
* **Finalize.** The releases stay registered, so a rank that decided early is replied to by every
  decider that finds all ranks final (`Finalize.RepliedExactly`, `ReleasesCanRepeat`). And
  `remove_message` compacts its vector with `remove_if` and erases nothing: this does no harm to
  other keys (`PendingMessages.RemovedFind`); an entry that is the last of all stays
  (`SingleRemoved`), and a final message that it has moved leaves an
  empty one behind, and a reply goes out to nobody (`RepliesStrayExactly`, `ReleasesCanStray`).
* **Sections behind memory blocks.** `get_section` takes a block's element count for the number of
  frames to skip, so it works exactly behind blocks of four elements
  (`Framing.SectionsBehindExactly`); `get_memblk` skips by frames.
* **Resource text.** A description survives printing and parsing exactly under the condition of
  `ResourceText.SurvivesExactly`; an empty value, which text can give, does not come back
  (`ResourceText.EmptyValueIsLost`).

## Model

| member | source | states |
|---|---|---|
| JsonLanguage.ParsesExactlyTheGrammar | utils/src/json.cc:644-744 | In standard mode `Json::parse` succeeds exactly on the texts derived by the byte-level grammar of sections 2 to 7 of RFC 8259 with at most 200 enclosing containers, and gives the value of the derivation, which `ObjectMeans` to `PairMeans` below say in full |
| JsonMeaning.ObjectMeans | utils/src/json.cc:670-701 | The fields of a derived object are in key order and hold, for exactly the keys among its members, the value of the last member with that key |
| JsonMeaning.ArrayMeans | utils/src/json.cc:703-725 | The items of a derived array are its elements' values, in order |
| JsonMeaning.IntExactly | utils/src/json.cc:592-595 | A number is an int, of its digits' value, exactly if it has at most nine characters without a point or an exponent, else a double |
| JsonMeaning.RealMeans | utils/src/json.cc:597-621 | A number's value is its whole part plus its fraction as so many decimal places, times ten to its exponent, with its sign |
| JsonMeaning.HexDigitMeans | utils/src/json.cc:519-525 | The value of a hexadecimal digit is its place among the sixteen, in either case |
| JsonMeaning.HexMeans | utils/src/json.cc:526-526 | Four digits are a number of base sixteen, most significant first |
| JsonMeaning.CharactersAre | utils/src/json.cc:377-380 | White space, digits and the bytes a string may hold are those of the specification |
| JsonMeaning.PairMeans | utils/src/json.cc:527-542 | A lead and a trail unit are read as the one code point that section 2.1 of RFC 2781 splits into them |
| JsonLanguage.AcceptsDerivation | utils/src/json.cc:644-744 | Every derivation's text is accepted, with the derivation's value |
| JsonLanguage.AcceptedDerives | utils/src/json.cc:732-744 | Every accepted text has a derivation |
| JsonLanguage.ReadsItems | utils/src/json.cc:480-567 | Any sequence of plain bytes, short escapes and `\u` escapes up to the quote is read as just these |
| JsonLanguage.ReadsNumber | utils/src/json.cc:573-622 | A number of the grammar is read to its end and to its value |
| JsonParsing.Parse | utils/src/json.cc:732-744 | The mutable parser computes what the functional reader says, consuming the whole text |
| JsonParsing.JsonParser.constructor | utils/src/json.cc:347-360 | A parser starts at the first byte and has not failed |
| JsonParsing.JsonParser.ConsumeWhitespace | utils/src/json.cc:377-380 | The cursor stops at the first byte that is not white space, within bounds |
| JsonParsing.JsonParser.GetNextToken | utils/src/json.cc:442-449 | The next token is consumed, or the parser fails at the end |
| JsonParsing.JsonParser.ParseString | utils/src/json.cc:480-567 | The one-pass decoder with its held-back code unit gives the two-pass meaning: pair lead and trail units, then encode each code point |
| JsonParsing.JsonParser.ParseNumber | utils/src/json.cc:573-622 | Accepts exactly a number of the grammar; an int up to nine characters, else a double |
| JsonParsing.JsonParser.ExpectText | utils/src/json.cc:629-638 | Steps back one byte and accepts exactly the expected literal |
| JsonParsing.JsonParser.ParseJson | utils/src/json.cc:644-728 | Dispatches on the token, refuses more than 200 levels, terminates |
| JsonParsing.JsonParser.ParseObject | utils/src/json.cc:670-701 | The member loop reads what the reader's member list says; a repeated key replaces the value |
| JsonParsing.JsonParser.ParseArray | utils/src/json.cc:703-725 | The loop that steps back one byte each time makes progress and reads the element list |
| JsonParsing.RawMeaning | utils/src/json.cc:480-567 | Flushing the held unit before a plain byte is what pairing and encoding give |
| JsonParsing.UnitMeaning | utils/src/json.cc:480-567 | Holding back, pairing or flushing a code unit is what pairing and encoding give, lone surrogates as three bytes |
| Utf8.DecodeEncode | utils/src/json.cc:455-474 | Decoding by section 3 of RFC 3629 inverts the encoder on every code point up to 10FFFF |
| Utf8.EncodeDecode | utils/src/json.cc:455-474 | The encoder inverts decoding on every valid form |
| Utf8.EncodeIsTheForm | utils/src/json.cc:455-474 | A byte string decodes to a code point if and only if it is what the encoder writes for it |
| JsonWriter.DumpInt | utils/src/json.cc:67-71 | Appends the decimal text of the number |
| JsonWriter.DumpString | utils/src/json.cc:77-112 | Appends the string's text, which the rows of `JsonPrinted` give byte by byte |
| JsonWriter.DumpValue | utils/src/json.cc:140-142 | Appends the text of the value's derivation tree |
| JsonWriter.DumpArray | utils/src/json.cc:114-124 | Appends the array's text with commas between the elements only |
| JsonWriter.DumpObject | utils/src/json.cc:126-138 | Appends the object's text with its members in key order |
| JsonPrinted.PlainPrinted | utils/src/json.cc:107-109 | A byte of 0x20 or more other than quote and backslash is written as itself, unless it starts one of the two separators |
| JsonPrinted.ShortPrinted | utils/src/json.cc:81-94 | Quote, backslash, backspace, form feed, newline, return and tab are written as a backslash and their letter |
| JsonPrinted.HexPrinted | utils/src/json.cc:95-98 | Any other byte below 0x20 is written as `\u00` and two lower-case digits |
| JsonPrinted.SeparatorPrinted | utils/src/json.cc:99-106 | E2 80 A8 and E2 80 A9 are written as `\u2028` and `\u2029` |
| JsonPrinted.UnescapedPrinted | utils/src/json.cc:77-112 | A string with nothing to escape is written as itself between quotes |
| JsonPrinted.ArrayPrinted | utils/src/json.cc:114-124 | An array's text is its items' texts with a comma and a space between |
| JsonPrinted.ObjectPrinted | utils/src/json.cc:126-138 | An object's text is, in key order, key, colon, space and value of each field with a comma and a space between |
| JsonPrinted.IntPrinted | utils/src/json.cc:67-71 | An int's text is a minus sign if it is negative and the digits of its magnitude without a leading zero |
| JsonPrinted.WordsPrinted | utils/src/json.cc:53-75 | null, true and false |
| JsonRoundTrip.RoundTripExactly | utils/src/json.cc:53-142 | Parsing a printed value succeeds if and only if no node has more than 200 enclosing containers, and gives a value equal to it under `operator==` |
| JsonRoundTrip.EscapeMeans | utils/src/json.cc:77-112 | What `dump` escapes, `parse_string` reads back, for every byte string |
| JsonRoundTrip.SettleEqual | utils/src/json.cc:173-189 | An int that comes back as a double of the same number is equal to it |
| JsonValue.EqualExactly | utils/src/json.cc:173-189 | Values are equal under `operator==` exactly if they are the same once every int is written as a double |
| JsonMulti.ParseMulti | utils/src/json.cc:747-766 | Values one after the other until the end or the first failure, and where the last good one ended |
| JsonMulti.MultiSound | utils/src/json.cc:747-766 | What is read without failure is a sequence of JSON texts, with their values, up to the end |
| JsonMulti.MultiFailure | utils/src/json.cc:747-766 | If a value fails, the values before it are kept with a null after them, and the stop position is where it starts |
| JsonMulti.MultiRoundTrip | utils/src/json.cc:747-766 | Any sequence of values printed with a space after each is read back |
| JsonValue.PutIs | utils/src/json.cc:688-688 | After an assignment the keys are in order, the key has the new value, every other key what it had |
| JsonValue.LessIsLexicographic | utils/src/json.cc:670-701 | The order of keys: by the first byte in which they differ, a prefix first |
| JsonValue.PutLast | utils/src/json.cc:688-688 | Members that arrive in key order are appended to the ordered map |
| TxStore.PacketStore.OptGenerate | virtualization_agent/common/src/generator_template.cc:191-221 | A fresh id; a linked entry takes its source's header and counts once there; counts stay right |
| TxStore.PacketStore.TryRemove | virtualization_agent/common/src/generator_template.cc:97-159 | The loop over predecessors does what the recursive specification says, and ends |
| TxStore.PacketStore.Update | virtualization_agent/common/include/base_utils.h:151-173 | Setting header, payload or deferral keeps links and counts |
| TxStore.GenerateCounted | virtualization_agent/common/include/base_utils.h:140-150 | Linking a new entry keeps every count equal to the number of live successors, predecessors live and smaller |
| TxStore.GeneratedIs | virtualization_agent/common/src/generator_template.cc:191-221 | A new entry has its source's header and nothing else; the source has one successor more, everything else is as it was |
| TxStore.RemovedIsExact | virtualization_agent/common/src/generator_template.cc:97-159 | Removing a childless entry erases exactly what no other childless entry is linked to; what stays keeps all but its count, and counts are right again |
| TxStore.RemovedLater | virtualization_agent/common/src/generator_template.cc:97-159 | While an entry has successors nothing is removed |
| TxStore.ReleaseChain | virtualization_agent/common/src/generator_template.cc:102-125 | Releasing a private chain erases that chain and changes nothing else |
| PipelineRuns.RunNeverFaults | virtualization_agent/common/src/basic_services.cc:105-143 | In no run does a handler read a missing entry, a missing payload or another alternative than it expects |
| PipelineRuns.ReadsAreOneHop | virtualization_agent/common/src/basic_services.cc:105-137 | Whatever is queued for a reader has its payload in a live entry at most one predecessor up that is not itself deferred; what the device manager refers to is alive too |
| PipelineRuns.RunIsCounted | virtualization_agent/common/include/base_utils.h:140-149 | In every reachable state successor counts are right, predecessors live with smaller ids |
| PipelineRuns.RepliesAreAnswers | virtualization_agent/common/src/collage.cc:273-474 | Every reply serves one request of the run, under its key and to its source: the manifest, the line of each kernel in order, or the kernel's outputs, all of fewer than 65536, block i being output n-1-i; no request is answered twice |
| PipelineRuns.IdleMeansAllAnswered | virtualization_agent/common/src/collage.cc:220-238 | Once the queues are empty every request has been answered and no entry is left |
| PipelineRuns.DrainErasesTheRequest | virtualization_agent/common/src/collage.cc:220-238 | Draining a response erases the four entries of its request, leaves every other entry as it was, and none of those was linked to an erased one |
| PipelineRuns.StepsReduceWork | virtualization_agent/common/src/basic_services.cc:46-71 | Every handler either finds its queue empty or brings the end nearer |
| PipelineRuns.EveryRunCanFinish | virtualization_agent/common/src/system_services.cc:36-65 | Every run can be carried on until nothing is queued |
| PipelineSteps.SubmitKeeps | virtualization_agent/common/src/collage.cc:193-218 | A submitted request keeps the invariant |
| PipelineSteps.SystemRequestKeeps | virtualization_agent/common/src/system_services.cc:80-131 | The system service's request handlers keep it |
| PipelineSteps.DeviceRequestKeeps | virtualization_agent/common/src/device_services.cc:220-307 | The device service's request handlers keep it |
| PipelineSteps.RunKernelKeeps | virtualization_agent/common/src/device_services.cc:232-235 | A kernel run, in any order, reads live arguments and keeps it |
| PipelineSteps.ReadResultKeeps | virtualization_agent/common/src/device_services.cc:201-216 | Putting a result into its response keeps it |
| PipelineSteps.SystemResponseKeeps | virtualization_agent/common/src/system_services.cc:90-167 | The system service's response handlers keep it |
| PipelineSteps.DrainKeeps | virtualization_agent/common/src/collage.cc:220-238 | Answering and removing keeps it |
| PipelineSteps.RightReply | virtualization_agent/common/src/collage.cc:313-474 | What collage reads for a response is the answer to the request it belongs to |
| VirtAgent.Agent.SubmitRequest | virtualization_agent/common/src/collage.cc:193-311 | Takes the step of the state machine: a fresh system request with the message's header and payload, queued |
| VirtAgent.Agent.SystemRequestStep | virtualization_agent/common/src/system_services.cc:80-131 | Takes its step, deferring unless there is nothing to read; false only where the original throws |
| VirtAgent.Agent.DeviceRequestStep | virtualization_agent/common/src/device_services.cc:220-307 | Takes its step for each of the three methods |
| VirtAgent.Agent.RunOne | virtualization_agent/common/src/device_services.cc:232-235 | Runs one submitted request |
| VirtAgent.Agent.ProcessRpc | virtualization_agent/common/src/device_services.cc:201-216 | Takes its step |
| VirtAgent.Agent.SystemResponseStep | virtualization_agent/common/src/system_services.cc:90-167 | Takes its step; kernel lines are gathered in order |
| VirtAgent.Agent.ProcessResponse | virtualization_agent/common/src/collage.cc:220-238 | Takes its step: the reply under the entry's key and source, then removal |
| VirtAgent.RecvBlocks | virtualization_agent/common/src/collage.cc:327-342 | The loop over `pop_output` gives as many arguments as a ushort counts, block i being argument n-1-i |
| VirtAgent.Agent.KernelLines | virtualization_agent/common/src/system_services.cc:133-167 | The i-th line is that of the i-th kernel |
| PackedBarrier.RoundsAreFull | utils/include/barrier.h:246-275 | In every run the phase bit has flipped once per full set: everyone expected in a round, and nobody else, had arrived |
| PackedBarrier.NobodyLeavesEarly | utils/include/barrier.h:257-267 | In every run a wait returns if and only if its round is over, and then all expected in it had arrived |
| PackedBarrier.PromptExactly | utils/include/barrier.h:246-275 | The current round can be carried to its end by some continuation if and only if no reload has come late so far |
| PackedBarrier.PromptRoundEnds | utils/include/barrier.h:246-256 | The continuation: the pending reload if there is one, then every missing participant leaves its wait and arrives |
| PackedBarrier.PromptRunsNeverHang | utils/include/barrier.h:246-256 | While no reload has come late, all participants have never arrived without somebody about to reload |
| PackedBarrier.ReloadKeeps | utils/include/barrier.h:249-250 | The reload keeps the counting if and only if some participant of the new round has not arrived yet |
| PackedBarrier.LateReloadIsForever | utils/include/barrier.h:249-250 | After a late reload the bit never flips again, whatever happens |
| PackedBarrier.WithoutDropsPrompt | utils/include/barrier.h:246-274 | Runs in which nobody drops out have no late reload |
| PackedBarrier.LateMeansDropped | utils/include/barrier.h:271-274 | Only a thread that dropped out can reload late |
| PackedBarrier.HangingRunHangs | utils/include/barrier.h:246-274 | A run of two participants after which the one that is left has arrived and waits for ever |
| PackedBarrier.ArriveKeeps | utils/include/barrier.h:246-255 | An arrival flips the bit if and only if it completes the round; fields never carry otherwise |
| PackedBarrier.StartDropKeeps | utils/include/barrier.h:271-272 | Dropping out adds to the expected field without a carry |
| PackedBarrier.PassWaitKeeps | utils/include/barrier.h:257-267 | A waiting thread passes if and only if its round is over |
| PackedBarrier.AddArrivals | utils/include/barrier.h:221-232 | Adding to the arrivals carries into the phase bit exactly at 2^31 |
| PackedBarrier.Barrier.constructor | utils/include/barrier.h:229-239 | The word starts with what the participants lack from 2^31, twice |
| PackedBarrier.Barrier.Arrive | utils/include/barrier.h:246-256 | Uninterrupted: the last expected arrival flips the phase and sets the arrivals back |
| PackedBarrier.Barrier.ArriveAndDrop | utils/include/barrier.h:271-274 | Uninterrupted: the same with one participant fewer from then on |
| Cyclic.FloorIsFloor | utils/include/barrier.h:83-85 | `__log2_floor` is the floor of the binary logarithm |
| Cyclic.CeilIsLeast | utils/include/barrier.h:86-89 | `__log2_ceil` is the least k with 2^k at least count |
| ButterflyBarrier.PassedMeansCovered | utils/include/barrier.h:116-121 | In every run, over any number of overlapping phases, a thread that has passed rounds 0 to k-1 of a phase has everyone less than 2^k places behind it arrived in that phase |
| ButterflyBarrier.ThroughMeansAll | utils/include/barrier.h:106-122 | A thread that is through all rounds of a phase has everybody arrived in it |
| ButterflyBarrier.PhaseWaitsForAll | utils/include/barrier.h:123-131 | The phase has never advanced more often than every thread has arrived, nor a wait returned more often than the phase advanced |
| ButterflyBarrier.WaitReturnsExactly | utils/include/barrier.h:132-155 | A wait returns if and only if the phase of its own arrival is over, although phases are counted modulo 4; then everybody has arrived in it |
| ButterflyBarrier.FlagTells | utils/include/barrier.h:119-120 | A thread finds its flag of a round changed if and only if its writer has set it in this phase, whatever next phase it may be in already |
| ButterflyBarrier.EveryRunCanGoOn | utils/include/barrier.h:106-155 | Every run can be carried on until every wait has returned as often as one likes: no deadlock in any phase |
| ButterflyBarrier.SlowestCanStep | utils/include/barrier.h:116-121 | The thread that is furthest behind is never blocked |
| ButterflyBarrier.OnePhaseApart | utils/include/barrier.h:106-155 | No thread is ever more than one phase ahead of another, and then the other has arrived in its own |
| ButterflyBarrier.PhasesOverlap | utils/include/barrier.h:106-155 | A run in which a thread sets a flag of the next phase that has not been read in this one |
| ButterflyBarrier.StepKeeps | utils/include/barrier.h:106-155 | Every load, store, phase advance and return from wait keeps the invariant |
| Semaphore.RunConserves | utils/include/counting_semaphore.h:261-391 | In every run: kernel value, posts in flight and back buffer sum to slow waiters minus the front deficit; back buffer plus pending give-backs is not negative |
| Semaphore.NeverTooMany | utils/include/counting_semaphore.h:374-391 | Never more acquires get through than the initial count and the releases allow |
| Semaphore.NeverMoreThanAsked | utils/include/counting_semaphore.h:374-391 | The same counted over the run's own actions: acquires that got through, and what its releases asked for |
| Semaphore.StrandedMeansBack | utils/include/counting_semaphore.h:261-274 | At rest the back buffer is what sleepers miss; one is stranded if and only if it is not empty |
| Semaphore.StrandsExactly | utils/include/counting_semaphore.h:261-324 | Whatever the count at the start, a sleeper can be stranded by n threads that release at most b at a time if and only if n is at least 5 and b at least 3 |
| Semaphore.SmallReleasesStrandNobody | utils/include/counting_semaphore.h:301-324 | Releases of at most two never strand a sleeper, however many threads there are |
| Semaphore.FourStrandNobody | utils/include/counting_semaphore.h:261-324 | Four threads never strand one of them, whatever they release |
| Semaphore.StrandingRunStrands | utils/include/counting_semaphore.h:261-324 | A run after which a sleeper has a token and no post; no further release wakes it |
| Semaphore.StepConserves | utils/include/counting_semaphore.h:261-391 | Every atomic step conserves |
| Semaphore.ReleaseAlone | utils/include/counting_semaphore.h:301-324 | The steps of an uninterrupted release together post two tokens at most and stock the rest |
| Semaphore.AcquireAlone | utils/include/counting_semaphore.h:384-391 | The steps of an uninterrupted slow acquire together move up to two tokens from the back buffer to the kernel semaphore |
| Semaphore.SemaphoreBase.Acquire | utils/include/counting_semaphore.h:384-391 | Uninterrupted: takes one token, backfilling at most two posts and losing none |
| Semaphore.SemaphoreBase.Backfill | utils/include/counting_semaphore.h:261-274 | Moves at most two from the back buffer to the kernel semaphore |
| Semaphore.SemaphoreBase.Release | utils/include/counting_semaphore.h:374-383 | Uninterrupted: as many tokens as sleepers are short, two directly and the rest stocked |
| WorkerPool.NothingLostOrDoubled | utils/include/thread_manager.h:30-86 | In every run queue lengths match their semaphores and the depth; messages are taken in submission order, once; outputs read, queued and in hand are exactly the handlers' outputs |
| WorkerPool.OneWorkerKeepsOrder | utils/include/thread_manager.h:55-72 | With one worker outputs come in input order, each batch backwards |
| WorkerPool.OneWorkerOrder | utils/include/thread_manager.h:46-63 | With one worker the j-th output from the back of the k-th message comes out behind the outputs of all earlier messages and j of its own |
| WorkerPool.RecordsAreTrue | utils/include/thread_manager.h:30-86 | What counts as submitted and read is what the run's submissions with room put in and its reads took off the front |
| WorkerPool.ProcessSingle | utils/include/thread_manager.h:55-72 | Takes the front message and puts its outputs out from the back |
| WorkerPool.TryReadAll | utils/include/thread_manager.h:43-53 | Reads everything in order and leaves the queue empty |
| WorkerPool.BoundedQueue.Enqueue | utils/include/concurrent_bounded_queue.h:17-28 | Appends; items and free space keep adding up to the depth |
| WorkerPool.BoundedQueue.TryDequeue | utils/include/concurrent_bounded_queue.h:42-52 | The front item, or nothing and no change |
| WorkerPool.BoundedQueue.Dequeue | utils/include/concurrent_bounded_queue.h:30-40 | The front item |
| PendingMessages.RemovedIs | utils/include/pending_msg_reg.h:164-168 | What the compaction makes of the vector, place by place: the kept entries, then the old entries with those moved from emptied |
| PendingMessages.KeptIs | utils/include/pending_msg_reg.h:164-168 | Kept are exactly the entries with another key |
| PendingMessages.SingleRemoved | utils/include/pending_msg_reg.h:164-168 | A single entry of a key cannot be found after its removal if and only if it was not the last of all |
| PendingMessages.FindIs | utils/include/pending_msg_reg.h:71-94 | A look-up finds the first entry with the key, or nothing if there is none |
| PendingMessages.RemovedFind | utils/include/pending_msg_reg.h:164-168 | Removing one key changes no other key's look-up, whatever the compaction leaves behind |
| PendingMessages.AddedFind | utils/include/pending_msg_reg.h:149-152 | Adding under an unused key is found there and changes no other look-up |
| PendingMessages.Registry.RemoveMessage | utils/include/pending_msg_reg.h:164-168 | The compaction in place is the specified shift, husks included |
| PendingMessages.Registry.GetIds | utils/include/pending_msg_reg.h:71-94 | The ids of the first entry with the key, or two empty strings |
| PendingMessages.Registry.AddPendingMessage | utils/include/pending_msg_reg.h:149-152 | Appends |
| RelayRuns.DataIsForItsSender | bridge_agent/src/accel_service.cc:429-493 | Every data frame carries the address and tag of one send, with what is computed for that send on the resource it claimed; no send is answered twice |
| RelayRecords.EveryDataAnswersASend | bridge_agent/src/accel_service.cc:429-493 | Every data frame answers one send action of the run: to its rank, under its tag, with what is computed for its data on the resource that the rank claimed under the claim it names; no send is answered twice |
| RelayRecords.EveryGrantAnswersAClaim | bridge_agent/src/accel_service.cc:621-653 | Every other frame answers one claim action of the run: to its rank, under its tag, saying yes; no claim is answered twice, and one has been answered if and only if it was sent to an agent and neither request nor response is on its way |
| RelayRecords.ResponseAnswers | bridge_agent/src/accel_service.cc:621-653 | Processing a response emits exactly one frame, which answers its claim |
| RelayRecords.RunRecords | bridge_agent/src/accel_service.cc:579-619 | What is recorded of claims and sends is what the run's actions asked; a send goes on with the id of the claim it names, or none |
| RelayRuns.ActiveClaimsAreRouted | bridge_agent/src/accel_service.cc:579-653 | If no rank claims twice under a tag, every active claim names the agent that holds its id |
| RelayRuns.ActiveSendsAreFound | accelerator_agent/src/res_mgr_frontend.cc:565-595 | If besides ranks send only on active claims, every send finds its resource and nothing throws |
| RelayRuns.RunHeldExactly | accelerator_agent/src/res_mgr_frontend.cc:301-321 | In every run an agent holds an id if and only if the bridge sent the claim there and the agent has granted it |
| RelayRuns.AnswerRoutesExactly | bridge_agent/src/accel_service.cc:621-653 | After any answer to any claim, the first under its tag or not, the claim names the answering node, and that agent holds its id if and only if the id was sent there and has been granted |
| RelayRuns.RepeatedTag | bridge_agent/src/ads_state.cc:64-84 | In particular: an active and routed claim stays routed by a further answer if and only if the same node granted both |
| RelayRuns.ReusedTagMisroutes | bridge_agent/src/ads_state.cc:64-84 | A run in which a tag is used twice and the active claim names an agent that does not hold its id |
| RelayProof.ClaimKeeps | bridge_agent/src/accel_service.cc:579-619 | The bridge's claim handler keeps the invariant |
| RelayProof.NodeClaimKeeps | accelerator_agent/src/res_mgr_frontend.cc:301-321 | The agent's claim handler keeps it and holds what it granted |
| RelayProof.ClaimRespKeeps | bridge_agent/src/accel_service.cc:621-653 | The bridge's claim response handler keeps it and never throws |
| RelaySends.SendKeeps | bridge_agent/src/accel_service.cc:454-493 | The bridge's send handler keeps it |
| RelaySends.NodeSendKeeps | accelerator_agent/src/res_mgr_frontend.cc:565-595 | The agent's send handler keeps it |
| RelaySends.VaRunKeeps | virtualization_agent/common/src/collage.cc:313-351 | A virtualization agent's answer keeps it |
| RelaySends.NodeRecvKeeps | accelerator_agent/src/res_mgr_frontend.cc:596-618 | The agent's receive handler finds the key it gave out, keeps the invariant and never throws |
| RelaySends.BridgeRecvKeeps | bridge_agent/src/accel_service.cc:429-452 | The bridge's receive handler finds the sender and keeps it |
| RelayAgents.BridgeAgent.AccelClaim | bridge_agent/src/accel_service.cc:579-619 | Takes the bridge's step for a claim |
| RelayAgents.BridgeAgent.FindCreateAdss | bridge_agent/src/ads_registry.cc:40-74 | A new rank starts with its claim, a known one gets it unless it has the tag |
| RelayAgents.BridgeAgent.AccelClaimResp | bridge_agent/src/accel_service.cc:621-653 | Takes the bridge's step for a claim response; none where the original throws |
| RelayAgents.BridgeAgent.AccelSend | bridge_agent/src/accel_service.cc:454-493 | Takes the bridge's step for a send; an unknown claim gives an empty id and node 0 |
| RelayAgents.BridgeAgent.AccelRecv | bridge_agent/src/accel_service.cc:429-452 | Takes the bridge's step for data |
| RelayAgents.RecommendNode | bridge_agent/src/anode_manager.cc:110-139 | Of the nodes that support a request one with the fewest outstanding messages; none if and only if no node supports it |
| RelayAgents.AcceleratorAgent.ResClaim | accelerator_agent/src/res_mgr_frontend.cc:301-321 | Takes the agent's step for a claim |
| RelayAgents.AcceleratorAgent.ResNexSendData | accelerator_agent/src/res_mgr_frontend.cc:565-595 | Takes the agent's step for a send |
| RelayAgents.AcceleratorAgent.ResNexRecvData | accelerator_agent/src/res_mgr_frontend.cc:596-618 | Takes the agent's step for a result |
| Finalize.NobodyBeforeAll | bridge_agent/src/accel_service.cc:506-568 | No rank is replied to before every registered rank is final |
| Finalize.EverybodyIsReleased | bridge_agent/src/accel_service.cc:506-568 | Once every rank has taken its locked step every rank has been replied to under its own tag |
| Finalize.RecordsAreTrue | bridge_agent/src/accel_service.cc:506-568 | Final are exactly the registered ranks that were marked, and a rank's tag is that of its own finalize request |
| Finalize.FirstReleaseReachesAllDecided | bridge_agent/src/ads_registry.cc:29-38 | From the first decider that finds everybody final, all that have decided have been replied to |
| Finalize.RemovedHas | utils/include/pending_msg_reg.h:164-168 | Compacting loses no message with another key |
| Finalize.ReleasesHas | utils/include/pending_msg_reg.h:170-191 | Every waiting final message is among those released |
| Finalize.StraysExactly | utils/include/pending_msg_reg.h:164-191 | A compaction makes a release go out to an empty address if and only if a final message with another key stands behind the entries that are kept |
| Finalize.RepliesStrayExactly | bridge_agent/src/accel_service.cc:506-568 | In every run a reply goes out to nobody if and only if such a compaction was followed by a decider that found everybody final |
| Finalize.ReleasesCanStray | bridge_agent/src/accel_service.cc:506-568 | A run of two ranks in which it does |
| Finalize.RepliedExactly | bridge_agent/src/accel_service.cc:506-568 | In every run, how often a rank has been replied to: once if it decided when all were final, else once for every such decider; so more than once if and only if it decided early and two decided late |
| Finalize.ReleasesCanRepeat | bridge_agent/src/accel_service.cc:506-568 | A run of three ranks in which one is replied to twice |
| Framing.BlockRoundTrip | utils/src/zmsg_viewer.cc:42-94 | `get_memblk(i)` gives the i-th item, a block, behind any sections and blocks |
| Framing.SectionRoundTrip | utils/src/zmsg_viewer.cc:96-162 | `get_section(i)` gives the i-th item, a section of the type asked for, behind any sections and behind blocks of four elements only |
| Framing.OtherTypeGivesNothing | utils/src/zmsg_viewer.cc:96-162 | Asked for another type than the i-th item's, `get_section` gives no values and does not throw |
| Framing.MemoryFrames | utils/src/zmsg_builder.cc:133-151 | A block's six frames: type 9, element count, sign, kind, element size, bytes |
| Framing.SectionFrames | utils/src/zmsg_builder.cc:87-109 | A section's frames: type, number of values, values |
| Framing.SectionsBehindExactly | utils/src/zmsg_viewer.cc:96-162 | `get_section` finds every section that may follow a list of items, whatever comes after it, if and only if every block among the items has four elements |
| Framing.WrongBlockFails | utils/src/zmsg_viewer.cc:141-151 | Behind items with any other block among them it throws on a section without values |
| Framing.ShortBlockHidesSections | utils/src/zmsg_viewer.cc:141-151 | Behind a block of fewer than four elements it throws on whatever follows |
| Framing.GetMemblk | utils/src/zmsg_viewer.cc:42-94 | The popping loop computes the block at the index, or throws |
| Framing.GetSection | utils/src/zmsg_viewer.cc:96-162 | The popping loop computes the section at the index, or throws |
| Framing.ZmsgBuilder.AddArbitraryData | utils/src/zmsg_builder.cc:49-66 | Appends a one-element section |
| Framing.ZmsgBuilder.AddArbitraryDataTop | utils/src/zmsg_builder.cc:68-85 | Puts a one-element section on top that reads like an appended one |
| Framing.ZmsgBuilder.AddSections | utils/src/zmsg_builder.cc:87-109 | Appends a section with all its values |
| Framing.ZmsgBuilder.AddMemblk | utils/src/zmsg_builder.cc:133-151 | Appends the six frames of a block |
| Framing.ZmsgBuilder.AddRawDataTop | utils/src/zmsg_builder.cc:42-47 | Pushes names, the last one ending on top |
| Framing.ZmsgBuilder.Finalize | utils/src/zmsg_builder.cc:153-168 | Appends the completion tag |
| ClientFrames.DeliverResult | runtime_agent/src/mpi_accel_impl.cc:83-110 | From the kernel's output through all envelopes to the client: fewer than 65536 arguments all arrive, in reverse order; of more, as many as a ushort counts |
| ClientFrames.IndicesFindTheBlocks | runtime_agent/src/mpi_accel_impl.cc:92-99 | Indices 5, 7+6i, 9+6i and 11+6i read the count and the i-th block's length, kind and bytes, for every argument count |
| ClientFrames.SequentialDecodeAgrees | utils/src/zmsg_viewer.cc:42-162 | Decoding the sections one after the other gives the same |
| ClientFrames.EnvelopesComeOff | bridge_agent/src/accel_service.cc:173-181 | Agent, bridge and routers strip and add envelopes so that the body reaches the client unchanged |
| ClientFrames.AgentSends | accelerator_agent/src/res_mgr_frontend.cc:596-618 | The accelerator agent's envelope around a result |
| ClientFrames.BridgeSends | bridge_agent/src/accel_service.cc:429-452 | The bridge's envelope around a result |
| ClientFrames.ColSendResp | virtualization_agent/common/src/collage.cc:313-351 | The frames of a result: the count at index 4, then six frames for each block, last argument first |
| ClientFrames.ProcessRecv | runtime_agent/src/mpi_accel_impl.cc:83-110 | Reads by index, or throws where an index finds no such frame |
| ClientFrames.ArgumentsArrive | virtualization_agent/common/src/collage.cc:272-311 | After bridge and agent replaced the section on top, the virtualization agent finds resource, count and every argument block of a request |
| ResourceText.SurvivesExactly | utils/src/ncache_registry.cc:29-40 | Parsing a description's text gives it back if and only if its nine printed values are not empty, have no delimiter in them and are not their field's own name, and the other three are wildcards |
| ResourceText.SurvivorsComeBack | utils/include/ncache_registry.h:16-38 | The sufficient half |
| ResourceText.EmptyValueIsLost | utils/include/ncache_registry.h:25-35 | A line of text whose description does not come back from its own text |
| ResourceText.ParsedIsClean | utils/include/ncache_registry.h:16-38 | Whatever lines are read, no value has a delimiter in it or is its field's own name |
| ResourceText.ParseMeans | utils/include/ncache_registry.h:16-38 | Every field of a parsed line has what the last part that mentions it gives, by name or by place, and is a wildcard if no part does |
| ResourceText.DescribeMeans | utils/include/ncache_registry.h:16-38 | With several inputs each further one overwrites just the fields it mentions |
| ResourceText.NothingDescribed | utils/src/ncache_registry.cc:20-27 | Without inputs every field is a wildcard |
| ResourceText.PartsAre | utils/src/ncache_registry.cc:29-40 | The nine parts of a description's text, in the order they are printed |
| ResourceText.JoinSplit | utils/src/utils.cc:79-88 | Splitting loses nothing but one delimiter at the very end |
| ResourceText.ManifestReproduces | utils/src/ncache_registry.cc:126-134 | Loading a manifest into an empty registry gives the same sequence if and only if nothing is in it twice and every description survives its text; loading it again then changes nothing |
| ResourceText.AddAllDistinct | utils/include/ncache_registry.h:168-191 | A registry stays free of duplicates and only grows |
| ResourceText.SplitJoin | utils/src/utils.cc:79-88 | Splitting joined non-empty parts gives them back |
| ResourceText.Construct | utils/include/ncache_registry.h:16-38 | The constructor's loops over any number of inputs compute the description, later fields overwriting earlier ones, or are undefined |
| ResourceText.CacheRegistry.AddResource | utils/include/ncache_registry.h:180-191 | Adds a parsed line unless it is there |
| ResourceText.CacheRegistry.AddResources | utils/include/ncache_registry.h:168-175 | Adds all lines in order |
| ResourceText.CacheRegistry.ExactExists | utils/src/ncache_registry.cc:79-83 | True if and only if an equal description is there |
| ResourceText.CacheRegistry.DumpManifest | utils/src/ncache_registry.cc:126-134 | The text of every description, in order |

## Left out

- Doubles are exact reals: printing them (`%.17g`) is not modelled, and `strtod` is taken to be exact.
- JsonWriter.DumpValue: values without doubles.
- JsonWriter.DumpArray: arrays without doubles.
- JsonWriter.DumpObject: objects without doubles.
- JsonRoundTrip.RoundTripExactly: values without doubles.
- JsonMulti.MultiRoundTrip: values without doubles.
- Comments in JSON, `operator<`, `has_shape`, error messages.
- Reading past the end of a `std::string` in `dump` and in number parsing is modelled as reading 0, as the terminator gives.
- The virtualization agent's shutdown, bounded capacity of its lock-free queues, `alloc_resource` (collage has no handler for it), locking finer than one handler.
- Kernels that return no payload never produce a response; a kernel is any function with one payload.
- Entries and payloads are values in a map; the device manager's reference to a payload is the id of the entry that has it.
- Requester, job and rank of a request's header, which `submit_request` never sets.
- VirtAgent.Agent.RunOne: the device manager's worker threads are the pool of `WorkerPool`; here one finished request is one step.
- ButterflyBarrier.PhaseWaitsForAll: a thread keeps its id in all phases and calls `wait` after each `arrive`; taking ids with `__get_id`, the completion function and `arrive_and_drop` of this barrier are not modelled.
- The barriers' and the semaphore's memory orders; every atomic operation is sequentially consistent.
- The argument of `arrive`, which this barrier ignores.
- Overflow of the semaphore's counters; timed and try acquire; polling before the front buffer is taken.
- Semaphore.SemaphoreBase.Acquire: a call that would sleep is not made; sleeping and waking are steps of the state machine.
- WorkerPool.BoundedQueue.Enqueue: on a full queue the original blocks holding the lock.
- WorkerPool.BoundedQueue.Dequeue: on an empty queue the original blocks holding the lock.
- WorkerPool.ProcessSingle: needs room for the batch, without which the original blocks.
- WorkerPool.NothingLostOrDoubled: an operation that blocks while holding the lock is not a step; deadlocks of a full queue are not claimed to be absent.
- Keys from `generate_random_str` are taken to be fresh across all agents.
- One bridge agent; requests of other jobs would be told apart by the address in the claim key.
- The relay takes any choice of a node and of a virtualization agent; `_recommend_va` is not modelled.
- RelayRuns.ActiveClaimsAreRouted: needs that no rank claims twice under a tag; for the other runs `AnswerRoutesExactly` says of every answer what it makes of its claim.
- Removal by type and predicate in the registry of pending messages, and its size.
- Frames are typed; the original checks only a frame's size.
- `add_memref` messages, which take seven frames where `get_memblk` reads six.
- ClientFrames.ArgumentsArrive: for requests written with memory blocks.
- Matching of descriptions by class, function and device (`compare`, `can_support`, `can_execute`).
- Sockets, MPI, shared memory, processes, files, logging, kernels, `kernel_db`, `latch`, `status_agent`, group and rank counters.
