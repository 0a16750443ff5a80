# Verification of the agent runtime's core rules

A Dafny model of the parts of the runtime whose correctness is more than one
function's business, and proofs about it. Each module follows one component:

- `Positional`, `Base58`: the base58 codec, its carry loops, and the two inverse laws.
- `FeedFanOut`: a feed's calls as a mixed-radix enumeration, and the bound on their number.
- `MetricsSink`: the sink, the forwarder and the flush barrier as a step relation over every interleaving.
- `LeaseStore`, `OwnerLeases`, `LeaseRuns`, `LeaseExclusion`, `LeaseRows`, `LeaseLoss`: taking and giving back a plan of leases, mutual exclusion over whole runs, and when a lease is lost.
- `DecisionLoop`, `ExecutionMap`: the validator of a decision loop, and maps that may only narrow one.
- `EvidenceVault`, `EvidenceVerify`: a snapshot, and what a verification of it says about every later vault.
- `StableSort`, `EvidenceWindows`: which rows a regrade reads.
- `TraceReplay`, `TraceGate`: replaying a child's events as a forest, and the gate that closes with its work.
- `Builder`, `BuilderOps`: saving, previewing and finalising a sandbox among an operator's edits and failing writes, call by call and operation by operation.
- `Observe`: cache-or-fetch, alone and interleaved.
- `Paths`, `Scopes`: folding, granting and checking the file roots of agents.

`dafny verify dfyconfig.toml` checks the whole project.

Code that updates state is modelled as methods with loops or as classes, and each
is tied by its contract to a function or predicate about which the laws are then
proved; protocols are step relations, and their laws are about every run. Clocks,
failures and the choices of other processes are inputs or nondeterministic.
Hashes, JSON, the compiler and the loader are parameters, with the facts used of
them written as preconditions (`EvidenceVault.Sound`, an injective `sha256` in
`Builder.PreviewedTextIsWritten`).

Five properties do not hold of the code as it stands; each has its counterexample
and its exact condition:

- Lease exclusion (`LeaseExclusion`). A renewal keeps the largest expiry it was ever
  granted, while the table keeps the last one written. Two renewals of one lease whose
  statements run against the order in which they read the clock leave the table with
  an earlier expiry than the process goes by (`OvertakenRenewal`). And expiries are
  compared with the wall clock: set back after a lease ran out and was taken over, it
  makes two owners at once (`ClockSetBack`). Whatever the table does not back leads to
  two owners (`UnbackedBreaks`). A run is safe throughout if and only if its steps are
  in order (`ExclusionExactly`): no renewal brings the expiry below an unexpired one that
  its process goes by or is about to, the clock is not set back below an expiry whose row
  has gone or runs out earlier, and no reading from before such a setting takes over an
  unexpired row. It is whenever renewals of one lease do not overlap and the clock is
  never set back (`OneOwnerApart`).
- Narrowing (`ExecutionMap`). A list is cut at `top` after the cap, so a lower cap lets
  values behind the dropped ones move up (`LowerCapWidens`). And the loader takes a NaN
  cap, which offers no value at all; a map's finite cap over it is accepted, as NaN is
  above nothing (`NaNCapWidens`). An accepted map narrows what is offered if and only if
  each cap it changes may take the old one's place (`MapNarrows`); it narrows what the
  caps let through if and only if it sets none over a NaN one (`MapTightens`).
- The backup of a finalise (`BuilderOps`). An operator's edit between the read of the
  old text and its replacement is in neither file afterwards (`EditIsLost`). Unless
  `.prev` is written meanwhile, the backup holds the replaced text if and only if that is
  the text the call left there (`ReplacedIsBackedUp`); every earlier edit is kept.
- The checks of a finalise (`BuilderOps`). They are not one step with its write: the
  configuration of a sandbox that is running, or view-only, by then is replaced
  (`RunningIsReplaced`, `ViewOnlyIsReplaced`), if and only if it was started after the
  idle check (`ReplacesRunningExactly`), or an edit or another call made it view-only after
  the edit check (`ReplacesViewOnlyExactly`), and has been so since. Calls that nothing
  interrupts replace neither (`Builder.RunningKeepsConfig`, `Builder.ViewOnlyUntouched`).
- Folding (`Scopes`). Folding twice is folding once if and only if the home directory
  is unknown, or is neither empty nor a path below `~/` other than `~` itself
  (`FoldIdempotent`, `Paths.ExpandTwice`).

## Model

| member | source | states |
|---|---|---|
| Base58.Encode | src/domain/base58.rs:9-30 | The in-place carry loops compute the text of the number in base 58 after one `1` for each leading zero byte; every digit stays canonical and the buffer never outgrows the reserved length |
| Base58.Decode | src/domain/base58.rs:32-57 | Succeeds exactly on texts over the alphabet, returns the bytes of the number after the leading zeros, and otherwise names the first foreign character |
| Base58.DecodeBody | src/domain/base58.rs:35-53 | The symbols after the leading `1`s read as one number, the buffer canonical and no longer than what was read; an error names the first foreign character |
| Base58.DecodeOfEncode | src/domain/base58.rs:9-57 | Every byte sequence encodes to a text over the alphabet that decodes to it |
| Base58.EncodeOfDecode | src/domain/base58.rs:9-57 | Every text over the alphabet, leading `1`s included, decodes to bytes that encode to it |
| Base58.EncodeInjective | src/domain/base58.rs:9-30 | No two byte sequences have one text |
| Base58.RoundTrip | src/domain/base58.rs:9-57 | Both round trips through the two loops themselves, and the text outside the alphabet that has none |
| Base58.AddDigit | src/domain/base58.rs:14-24 | One pass of the carry over the buffer and the pushes after it are exactly multiply-and-add in the base |
| Base58.CarryBound | src/domain/base58.rs:15-24 | At an inner step what is stored is a digit and what is carried stays below the multiplier: at most 255 while encoding, 57 while decoding |
| Base58.MulAddCanonical | src/domain/base58.rs:14-24 | Multiply-and-add never leaves a zero on top |
| Base58.MulAddValue | src/domain/base58.rs:14-24 | Multiply-and-add of digits multiplies and adds the numbers they denote |
| Base58.RebaseBack | src/domain/base58.rs:9-57 | Changing the base and back loses nothing but leading zeros |
| Base58.CodecLengths | src/domain/base58.rs:12-35 | The text fits `len * 138 / 100 + 1` symbols after the leading ones, and the bytes fit the length of the text |
| Base58.EncodeFits | src/domain/base58.rs:12 | A canonical base-58 buffer of the number of `n` bytes is no longer than `len * 138 / 100 + 1`, by 58^11 >= 256^8 |
| Base58.Position | src/domain/base58.rs:38-42 | Finds the place of a character in the alphabet, or that it has none |
| Base58.DigitOfSymbol | src/domain/base58.rs:6 | The 58 symbols are distinct: a symbol gives its digit back |
| Base58.AlphabetSpelledOut | src/domain/base58.rs:6 | The symbols by their digits are the alphabet as the source spells it |
| Positional.UniqueNumeral | src/domain/base58.rs:14-24 | Two digit sequences without a zero on top that denote one number in one base are equal |
| FeedFanOut.Calls | src/config/feeds.rs:198-216 | As many calls as the product of the list lengths; call `k` carries for the `j`-th key the value at (`k` div the product of the later lengths) mod its own length, and everything else as in `args` |
| FeedFanOut.CombinationsOnce | src/config/feeds.rs:198-216 | Every combination of one position per list is exactly one call |
| FeedFanOut.DigitsTell | src/config/feeds.rs:198-216 | Two calls that agree in every position are one call |
| FeedFanOut.DigitsAscend | src/config/feeds.rs:198-216 | Of two calls the later one has the later position in the first key where they differ: the last key varies fastest |
| FeedFanOut.ArgsKept | src/config/feeds.rs:198-216 | With no key in both, a call has the keys of `args` and of `each`, and all of `args` unchanged |
| FeedFanOut.SomeCall | src/config/feeds.rs:198-216 | There is a call exactly when no list is empty |
| FeedFanOut.CountCalls | src/config/feeds.rs:349-354 | The saturating product refuses exactly when the true number of calls is above 500, whatever its size |
| MetricsSink.FlushBarrier | src/application/metrics.rs:107-170 | In every interleaving: when a flush called at some step has resolved with the forwarder running, every record of an earlier send has been given to `on_record` since, or its position lies in a lag report |
| MetricsSink.FlushOfEnded | src/application/metrics.rs:114-119 | A flush that resolves otherwise does so because the forwarder has ended |
| MetricsSink.SentInOrder | src/application/metrics.rs:88-103 | At every moment of a run the sink has been sent exactly the records of its sends, in their order |
| MetricsSink.SendsAt | src/application/metrics.rs:88-103 | Each record sent stands at the place of the number of sends before it, for good |
| MetricsSink.SendsAlways | src/application/metrics.rs:50-94 | A send is possible in every state, and changes nothing but what is sent |
| MetricsSink.HandGives | src/application/metrics.rs:134-160 | A receive gives `on_record` the oldest record not yet passed, by the order of the sends, and it is among the newest 256 |
| MetricsSink.SkipReports | src/application/metrics.rs:142-160 | A lag report counts exactly the records overwritten before they were read, and reading goes on with the oldest one left |
| MetricsSink.CallCounts | src/application/metrics.rs:114-119 | The number of records sent when a flush was called is what the barrier is measured by, from then on |
| MetricsSink.SinkConserves | src/application/metrics.rs:127-170 | In every run the records given to `on_record` are a subsequence of the sends, each once, and given + lost + unread = sent |
| MetricsSink.NothingLostWithinCapacity | src/application/metrics.rs:14-16 | While no more than 256 sends are unread, what was given to `on_record` is the beginning of what was sent |
| MetricsSink.NothingAfterEnd | src/application/metrics.rs:132-168 | After the forwarder has ended it hands nothing on and reports nothing, in any run |
| MetricsSink.RefusalEnds | src/application/metrics.rs:137-157 | A false from `on_record`, in either mode, ends the forwarder and leaves no flush waiting |
| MetricsSink.FlushAnswered | src/application/metrics.rs:147-165 | Left alone, the forwarder answers every waiting flush after finitely many steps |
| MetricsSink.DropEnds | src/application/metrics.rs:105-107 | Once the barrier is dropped the forwarder, left alone, ends, and no flush is left waiting |
| MetricsSink.AllKept | src/application/metrics.rs:107-170 | The order, queue and barrier invariants hold at every moment of every run |
| LeaseStore.Resources | src/bootstrap/runtime.rs:221-234 | The plan's resources in taking order, each once, exactly those the plan needs, the runner's first |
| LeaseStore.SharedDirSharesLease | src/bootstrap/runtime.rs:201-234 | Two sandboxes that write into one directory need one lease, whatever they use it for |
| LeaseStore.LeasesOf | src/bootstrap/runtime.rs:201-234 | The leases of a configuration: its sandbox's, or that of `default`, and one named after the last component of each of its [xmarket] and SOE dirs; and the dir of its `runtime.db` |
| LeaseStore.NoSharedLease | src/bootstrap/runtime.rs:201-234 | Two configurations share no lease exactly when their sandbox names differ and no dir of one is named like a dir of the other |
| OwnerLeases.Owner.TakeAll | src/bootstrap/runtime.rs:327-358 | All or none: every resource granted in order, each at its clock reading; or at one of them a refusal that carries the store's reply if the store answered and is a store error if not, and every lease granted before it freed, last first |
| OwnerLeases.Owner.Free | src/bootstrap/runtime.rs:404-420 | Every lease is freed in reverse order whatever becomes of each; the answer says whether all were |
| OwnerLeases.GivingUpLeavesNothing | src/bootstrap/runtime.rs:340-420 | A refused take whose releases work, no other process calling in between, undoes its own calls: no row of the holder, and the others' unexpired rows as they were |
| OwnerLeases.TakenRows | src/bootstrap/runtime.rs:327-345 | A holder without rows has, after its grants, rows of those resources only, and has overwritten no unexpired row |
| OwnerLeases.FreedRows | src/bootstrap/runtime.rs:404-420 | Releases remove exactly the holder's rows of those resources and no one else's |
| LeaseRuns.OneOwner | src/bootstrap/runtime.rs:310-420 | In every run, from any table, of takes, renewals in flight, releases, crashes, expiry and clock settings forward and back by any number of processes, with every step in order, no two own one resource by an unexpired lease, and an owner holds its whole plan |
| LeaseExclusion.ExclusionExactly | src/application/runtime/mod.rs:177-273 | The exact condition: every state of a run is one from which no two processes can come to own one resource, as long as later steps are in order, if and only if every step of the run is: the clock is not set back below an expiry that someone goes by and whose row is gone or shorter, no reading from before such a setting takes over an unexpired row, and no renewal falls short |
| LeaseExclusion.StepSafe | src/application/runtime/mod.rs:235-272 | The same for one step of any kind from a state whose table backs what processes go by: what it leaves is safe if and only if it is in order |
| LeaseExclusion.StepKeepsBacking | src/application/runtime/mod.rs:235-272 | A step, reported as done or as failed, leaves every unexpired claim of every process backed by the table if and only if it is in order; for a renewal, if its new expiry is below no unexpired one its process goes by and it takes over none of another's |
| LeaseExclusion.UnbackedBreaks | src/application/runtime/mod.rs:235-272 | From every claim that the table does not back, of a process with its whole plan or still taking it, steps in order lead to two owners at once |
| LeaseExclusion.OvertakenRenewal | src/application/runtime/mod.rs:235-272 | A short renewal is reachable: two renewals of one lease under way, the one that read the clock later runs first |
| LeaseExclusion.ClockSetBack | src/domain/observation.rs:429-436 | A reachable state without any renewal in which setting the wall clock back by ten seconds makes two owners at once |
| LeaseExclusion.OneOwnerApart | src/application/runtime/mod.rs:235-282 | When no two renewals of one lease are under way at once and the clock is never set back, exclusion holds in every run |
| LeaseRuns.RunCovered | src/bootstrap/runtime.rs:310-420 | Over a run whose steps are in order the table backs every unexpired expiry that an owner, or a process still taking its plan, goes by or is about to |
| LeaseRows.NothingLeftBehind | src/bootstrap/runtime.rs:340-420 | Whatever other processes do in between: a process that has released all it took, after a refusal or at its end, and met no store error has no row in the table |
| LeaseRows.OnlyItsOwn | src/adapters/outbound/runtime_store.rs:25-33 | Over any run of the others' steps, renewals begun before a loss or a release included, a row stays as it is until some clock reading reaches its expiry, whether the clock is set back in between or not |
| LeaseRows.ReleaseIsHolderScoped | src/adapters/outbound/runtime_store.rs:116-127 | A release leaves every row of another holder, expired ones included |
| LeaseLoss.RenewalDecides | src/application/runtime/mod.rs:235-272 | When a renewal loses the lease, by the table and the clock reading at its statement, whatever happens before its answer comes in: an answered one unless the row is still the process's own of the same grant (or nobody's, at a reading equal to the lease's), a failed one unless more than 1 s was left. A lease kept by an answer lasts until 30 s after the reading at least, and nothing else changes it |
| LeaseLoss.RenewalReads | src/application/runtime/mod.rs:239-244 | A renewal goes by the clock and the known expiry that were there when it began, until its statement runs |
| LeaseLoss.OvertakenForGood | src/application/runtime/mod.rs:260-263 | A renewal whose statement finds another process's unexpired row makes its process own nothing in the rest of every run |
| LeaseLoss.TakeDecides | src/bootstrap/runtime.rs:337-354 | A take is granted unless another process has the row unexpired at the reading, adds one lease of 30 s and a row, and completes the plan with the last; otherwise, or when the store fails, the process gives up and never owns anything |
| LeaseLoss.LostForGood | src/application/runtime/mod.rs:212-239 | A process that lost a lease, crashed, or gave up a plan it never had in full owns nothing in the rest of the run |
| DecisionLoop.ValidationErrors | src/config/decision_loop.rs:264-359 | Names a structural problem if and only if the configuration has it |
| DecisionLoop.ActionErrors | src/config/decision_loop.rs:315-357 | Names a problem of an action and of its slots if and only if it is there |
| DecisionLoop.StepErrors | src/config/decision_loop.rs:290-302 | Names a step if and only if it is no action or a terminal one |
| DecisionLoop.SoundIsClosed | src/config/decision_loop.rs:264-359 | There is no problem if and only if the limits are set, no slot, `requires`, cap or sequence reference dangles, and the chain can end on a terminal action |
| DecisionLoop.ActionIsClosed | src/config/decision_loop.rs:315-357 | An action has no problem exactly when all it refers to is there |
| DecisionLoop.SoundSlotHasOneMode | src/config/decision_loop.rs:376-432 | A slot that is not malformed reads one value at its path, or the list at its items with its value field and its own `top`, never both |
| DecisionLoop.TrimSplits | src/config/decision_loop.rs:268 | Trimming takes away the white space at both ends, all of it and nothing else |
| ExecutionMap.Apply | src/config/execution_map.rs:93-189 | Accepts exactly when the map may ask what it asks and the one loop it asks for is sound, and returns that loop: the tools it lists with the terminal actions, its caps, order, limits and dry-run where it sets them, the goal gone on with the trimmed task, all else as it was; otherwise every refusal and no other |
| ExecutionMap.AcceptedExactly | src/config/execution_map.rs:93-189 | The condition spelled out on the map and the loop: known actions, an object of at most 16384 bytes, a goal of at most 2000 characters that is not blank, no more steps, no lower confidence, no dry-run off, finite caps not above the loop's on slots of actions that stay, and a sound loop at the end |
| ExecutionMap.AskedOnce | src/config/execution_map.rs:93-189 | What a map asks of a loop is one loop |
| ExecutionMap.MapNarrows | src/config/execution_map.rs:93-189 | An accepted map leaves a loop that offers, runs and decides no more, keeps the terminal actions, tools, arguments, slots and what is only logged, and keeps the trimmed goal as a prefix, if and only if each cap it changes may take the old one's place: none over a list that anything is taken from, as the cut at `top` comes after the cap, none over a NaN that bounds one value, and over a NaN on static values only one that lets none of them through |
| ExecutionMap.MapTightens | src/config/execution_map.rs:93-189 | The weaker relation: all of that, but with caps that let through and run no value that the loop's caps would not, if and only if the map sets no cap over a NaN cap |
| ExecutionMap.ChainNarrows | src/config/execution_map.rs:93-189 | Both conditions, exact, between the end and the beginning of any chain of accepted maps; a chain from caps that are numbers never lets more through, and its end has no dangling reference |
| ExecutionMap.NarrowerTransitive | src/config/execution_map.rs:93-189 | Narrower is transitive over whole configurations |
| ExecutionMap.MapKeepsClosed | src/config/execution_map.rs:182-187 | The loop of an accepted map refers only to what it has, and its caps are numbers if the loop's were |
| ExecutionMap.NaNCapWidens | src/config/execution_map.rs:136-154 | A loadable loop with a NaN cap and an accepted map over it whose cap lets through, and whose loop offers, a value it did not |
| ExecutionMap.LowerCapWidens | src/application/decision_loop/slots.rs:75-86 | A loadable loop and an accepted map that lowers a cap from 5 to 2: of the list 3, 1 cut at one the loop offers 3 and the narrowed loop offers 1 |
| ExecutionMap.OffersExactly | src/application/decision_loop/slots.rs:45-113 | A list slot offers the first `top` of the values its cap lets through, in their order; a static slot all of those; a bound one its one value if the cap lets it through |
| ExecutionMap.InNumbers | src/application/decision_loop/mod.rs:517-527 | A cap lets through numbers up to itself and nothing else, a NaN cap nothing; before the tool runs, what is no number passes; a confidence is enough from the threshold on |
| ExecutionMap.CapNarrows | src/application/decision_loop/slots.rs:45-113 | A cap that is the same, or finite and not above the old one, makes a slot offer no value it did not, whatever is read, if and only if it may take the old one's place |
| ExecutionMap.CapsDecide | src/config/execution_map.rs:136-154 | Two loops that differ in tighter caps: narrower in what is offered, and in what is let through, exactly when each cap is |
| ExecutionMap.LimitsNarrow | src/config/execution_map.rs:155-181 | Fewer steps, no lower confidence to act, and dry-run never turned off |
| ExecutionMap.GoalStays | src/config/execution_map.rs:121-135 | The trimmed goal of the loop stays a prefix |
| ExecutionMap.NarrowCaps | src/config/execution_map.rs:136-154 | The caps of one action after the loop over them, and every refusal of one |
| EvidenceVault.CheckSources | src/application/evidence.rs:84-117 | Finds a problem if and only if a source is missing, of another kind, or has a live WAL that is not itself an item |
| EvidenceVault.Refusal | src/application/evidence.rs:62-117 | The checks pass exactly when the plan is valid and uncaptured, the vault is absent and every source is fine |
| EvidenceVault.Snapshot | src/application/evidence.rs:57-156 | When a check fails the vault is untouched; a success leaves exactly the copies, the sorted manifest and the record of their hashes |
| EvidenceVault.CopyItems | src/application/evidence.rs:118-135 | The vault holds the copies of the items so far, the manifest lists each once, and each item carries its hash, count and size |
| EvidenceVault.Vault.CopyIn | src/application/evidence.rs:122-124 | A copied item adds its files, none of them there before, and lists them |
| EvidenceVault.ManifestReadsBack | src/application/evidence.rs:40-47 | The manifest reads back as the same entries, in path order |
| EvidenceVault.OneOwner | src/domain/evidence.rs:178-215 | No file of the vault belongs to two items of a valid record |
| EvidenceVault.TotalSame | src/application/evidence.rs:126 | The size of an item does not depend on the order of its files |
| EvidenceVault.RecordedFromSource | src/application/evidence.rs:121-135 | What a snapshot records of an item: of a FILE the hash and size of its source's content, of a DIR the tree hash of its source's files under its path, their number and the length of their contents together |
| EvidenceVerify.Verify | src/application/evidence.rs:214-307 | Each refusal, or a report that says of the vault as it is now: the manifest's hash, a line for each listed file that is not there as listed and for each unlisted one, and a line for each item |
| EvidenceVerify.ReportSays | src/application/evidence.rs:226-297 | Those lines spelled out: a changed listed file is a MISMATCH with its hash and size now, a missing one ABSENT, an unlisted one EXTRA; an item's line has the hash, number and size of its listed files that are there, as they are now, and is ABSENT when there is none, nor the dir of a DIR |
| EvidenceVerify.FileItemSays | src/application/evidence.rs:263-297 | A FILE item is ABSENT if and only if its path is not both listed and in the vault; listed once, its line has the hash and size of the file there now, and is MATCH if and only if the record has them |
| EvidenceVerify.CheckListed | src/application/evidence.rs:236-256 | Every listed file that is there hashed as it is now, as often as listed, changed ones included; those that fail, and how many match |
| EvidenceVerify.CheckExtra | src/application/evidence.rs:257-262 | One line for each file of the vault that the manifest does not list |
| EvidenceVerify.VerifyExact | src/application/evidence.rs:191-307 | A report is all MATCH exactly when the manifest has the recorded hash, lists what the vault holds, and every item follows from its entries; for any record and any vault |
| EvidenceVerify.TamperExact | src/application/evidence.rs:191-307 | For the record of a snapshot and the vault at any later time: all MATCH exactly when the manifest and the path-to-content map are as captured and every directory item is still there |
| EvidenceVerify.SnapshotVerifies | src/application/evidence.rs:57-307 | A fresh snapshot is all MATCH, with as many files as matches as the vault holds |
| EvidenceVerify.CaptureAndVerify | src/application/evidence.rs:57-307 | The same through the two methods, whatever fails on the way |
| EvidenceVerify.VaultHoldsSources | src/application/evidence.rs:118-135 | A vault holds what the sources of its items held, each FILE at its path and each file of a DIR under it, and nothing else |
| EvidenceVerify.PartOfCopy | src/application/evidence.rs:263-274 | The files that verification gives to an item are those that were placed for it |
| EvidenceVerify.MineLists | src/application/evidence.rs:267-274 | The entries filtered for an item list exactly its files |
| EvidenceVerify.Judge | src/application/evidence.rs:199-212 | Match, absent and extra, each exactly where expected and actual say so |
| EvidenceWindows.Merge | src/application/evidence.rs:418-428 | Covers the instants the spans cover and no other, sorted with a strict gap between neighbours |
| EvidenceWindows.HourWindows | src/application/evidence.rs:490-494 | One window for each full hour in (entry, exit], in order, by the loop |
| EvidenceWindows.CtxWindows | src/application/evidence.rs:484-495 | The context windows cover exactly the four instants' and the funding hours' reach |
| EvidenceWindows.BookWindows | src/application/evidence.rs:496-505 | The book windows cover exactly what lies within the age of entry or exit |
| EvidenceWindows.ReadWindows | src/application/evidence.rs:506-559 | Each row of the windows' union is read once and none outside; then the instants strictly increase, and the row kept of an instant of the windows is the first one the history has of it |
| EvidenceWindows.NeverTwice | src/application/evidence.rs:418-428 | No instant lies in two separated windows |
| EvidenceWindows.DedupKeepsFirst | src/application/evidence.rs:555-558 | After a sort, what stays of equal instants is the first of them |
| StableSort.SortFirst | src/application/evidence.rs:555-557 | The sort is stable: the first of equal elements stays first |
| TraceReplay.ReplayChild | src/application/trace_exec.rs:331-359 | The events written are exactly the `tool.` drafts in order, kind and payload as they were, in the given session, without a correlation, as a tool's, each under the id given to its parent earlier or under the step, with fresh ids; the count is the number of accepted ones |
| TraceReplay.ToolsInOrder | src/application/trace_exec.rs:339-342 | What is replayed is `tool.` drafts only, each at its place, in their order |
| TraceReplay.EveryToolIsReplayed | src/application/trace_exec.rs:339-342 | No `tool.` draft is left out |
| TraceReplay.MapHoldsLast | src/application/trace_exec.rs:337-357 | The id map holds, for each of the child's ids, the last id the sink gave for it |
| TraceReplay.ReachesTheStep | src/application/trace_exec.rs:343-349 | From every event the chain of parents goes back strictly and ends at the step |
| TraceReplay.LinksGoBack | src/application/trace_exec.rs:343-349 | With fresh ids a link never goes forward: no cycles |
| TraceReplay.OneChain | src/application/trace_exec.rs:343-349 | The chain from an event is the only one: a forest under the step |
| TraceReplay.ForestKept | src/application/trace_exec.rs:337-357 | The links are the child's own: an event hangs under an accepted one exactly when the child said so and it came first, and under the step exactly otherwise |
| TraceGate.NothingAfterClose | src/application/trace_exec.rs:284-298 | In every interleaving, nothing is let through, written, or panics in the inner sink once any close has returned |
| TraceGate.CheckedEndsBeforeClose | src/application/trace_exec.rs:268-298 | A write whose check succeeded has ended before a close takes effect or returns |
| TraceGate.WriteWasChecked | src/application/trace_exec.rs:291-298 | Every write was let through just before, by its own thread and for its own draft |
| TraceGate.RefusedAfterShut | src/application/trace_exec.rs:291-298 | An emit is refused only when a close has taken effect before it |
| TraceGate.WorkLandsBeforeClose | src/application/trace_exec.rs:305-327 | With `close_after`, finished or dropped, all that the work and its drop emitted in the run has reached the inner sink, in order, when the close returns |
| TraceGate.ThreadsInTurn | src/application/trace_exec.rs:284-298 | In every interleaving each thread goes in turn: an emit is checked or refused with its own draft, a checked one written or panics with it, a close shuts the gate and returns, nothing else of the thread in between |
| TraceGate.AskedByRun | src/application/trace_exec.rs:291-298 | What the log says the work asked for is what it emitted in the run, in order |
| TraceGate.AllKept | src/application/trace_exec.rs:268-303 | Lock, flag and write order are kept in every state of every run |
| Builder.WhyNot | src/application/builder.rs:162-178 | View-only exactly when there is a configuration and it has no blueprint beside it or is not editable, unless a read fails |
| Builder.Save | src/application/builder.rs:237-247 | A save that writes leaves the blueprint of its own editable sandbox as the JSON of the given one and everything else as it was, whatever fails after; a success has written it and tells how the text compiles |
| Builder.MakePreview | src/application/builder.rs:288-314 | The text on the present configuration, its hash and the loader's verdict; the store is not in its frame |
| Builder.Finalise | src/application/builder.rs:316-366 | How far the writes got and the exact files after each; a success leaves the new blueprint, the compiled text and the old text as backup, and only of its own editable idle sandbox with a text that has the given hash, compiles and loads |
| Builder.CreateSandbox | src/application/builder.rs:411-442 | A success leaves a new directory with the template's blueprint and a text the loader accepts, and all else as it was; an existing one is left as it is |
| Builder.Store.WriteConfig | src/adapters/outbound/builder_store.rs:145-158 | The old text to `.prev`, then the new one, each whole or not at all |
| Builder.Store.Create | src/adapters/outbound/builder_store.rs:160-183 | Never over an existing directory; what a failure leaves behind |
| Builder.ConfigComesFrom | src/application/builder.rs:316-442 | In every run with operator edits and failing writes, a configuration is one the loader accepts, was there at first, or was written by the operator |
| Builder.LastReplacement | src/application/builder.rs:316-366 | In every run, without operator edits of it, of calls that nothing interrupts, a changed configuration comes from a finalise that was allowed where it ran and backed up what it replaced |
| Builder.OnlyFinaliseReplaces | src/application/builder.rs:316-366 | By calls that nothing interrupts, a configuration is replaced only while editable and idle, by a text that loads and has the given hash, and the old text is then `.prev` |
| Builder.AppearsLoadable | src/application/builder.rs:316-442 | Where there was no configuration, one appears only by a creation in a new directory or a finalise while idle, and loads |
| Builder.BackupIsAnOldText | src/adapters/outbound/builder_store.rs:145-158 | In every run the backup is the first one or the configuration at some moment of the run |
| Builder.ViewOnlyUntouched | src/application/builder.rs:162-178 | What is view-only is never touched in any run of calls that nothing interrupts, whatever is called and fails |
| Builder.HandWrittenUntouched | src/application/builder.rs:162-178 | A configuration without a blueprint is never touched in any run of calls that nothing interrupts |
| Builder.RunningKeepsConfig | src/application/builder.rs:316-321 | While a runtime runs, no run of calls that nothing interrupts changes its configuration or backup |
| Builder.SavesKeepConfig | src/application/builder.rs:237-247 | Runs without a finalise of a sandbox keep its configuration and backup |
| Builder.PreviewedTextIsWritten | src/application/builder.rs:288-366 | A finalise with the hash of a preview writes the text of that preview, whatever happened in between |
| Builder.PreviewThenFinalise | src/application/builder.rs:288-366 | On an unchanged configuration the hash agrees, so a finalise is refused only for another reason |
| BuilderOps.ConfigComesFrom | src/application/builder.rs:162-442 | Any number of calls interleaved operation by operation, with edits in between: a configuration is one the loader accepts, was there at first, or was written by the operator |
| BuilderOps.OnlyTheLastReplaces | src/application/builder.rs:316-351 | In such a run a configuration changes only by the last write of a finalise or a creation, with a text that loads and, for a finalise, has the given hash |
| BuilderOps.ReplacedIsBackedUp | src/adapters/outbound/builder_store.rs:145-158 | When a finalise replaces a configuration, whatever has happened since it began: unless someone wrote `.prev` since, it holds the replaced text if and only if that is the text the call left there, which is what it read, or the older backup where it found no configuration |
| BuilderOps.ReplacesRunningExactly | src/application/builder.rs:316-351 | In every interleaving: a finalise about to replace a configuration finds the sandbox running if and only if the runtime was started after that call's idle check and has run since |
| BuilderOps.ReplacesViewOnlyExactly | src/application/builder.rs:316-351 | In every interleaving: a finalise about to replace a configuration finds the sandbox view-only if and only if an edit or another call after that call's own check made it so and it has been so since |
| BuilderOps.RunningIsReplaced | src/application/builder.rs:318-351 | A run from no calls in which a runtime starts after the idle check and its configuration is replaced while it runs |
| BuilderOps.ViewOnlyIsReplaced | src/application/builder.rs:318-351 | A run from no calls in which the blueprint goes after the check and the configuration of a hand-written sandbox is replaced |
| BuilderOps.EditIsLost | src/adapters/outbound/builder_store.rs:145-158 | One run from no calls: an edit after the old text is read and before it is replaced is in no file afterwards |
| BuilderOps.FinaliseIsItsOps | src/application/builder.rs:316-366 | A finalise that nothing interrupts does, operation by operation, what its one step does |
| BuilderOps.SaveIsItsOps | src/application/builder.rs:237-247 | The same for a save |
| BuilderOps.CreateIsItsOps | src/application/builder.rs:411-442 | The same for a creation |
| BuilderOps.AloneIsRun | src/application/builder.rs:316-366 | Operations of one call in a row are a run of the interleaved model |
| Observe.Observe | src/application/observe.rs:19-59 | A fresh row of the asked key, marked as cached, unless the read of it fails; else the live read of what was fetched, with its key, slot, ttl, body and status, an error when it does not serialize; exactly what it leaves in the cache and in the history, for each way a store call fails |
| Observe.FreshExactly | src/domain/observation.rs:267-276 | Fresh is usable, with a positive ttl and a positive asked age, neither of which has passed since the read |
| Observe.ReadDecides | src/application/observe.rs:31-41 | In the interleaved model a call that can read the store serves a fresh row, and fetches otherwise |
| Observe.ResultsAreFetched | src/application/observe.rs:42-43 | In every run a call's live result is the read of the value that its own fetch brought |
| Observe.CallAsks | src/application/observe.rs:19-26 | A call goes by the query it began with |
| Observe.JournalIsTheRun | src/application/observe.rs:42-51 | The order of the fetches is that of the run's steps, and a result is lost to the history only by a recorder that failed |
| Observe.Store.Put | src/ports/observation.rs:20-24 | An upsert, ignored for an error row and when the slot would go back |
| Observe.CacheHoldsLiveRows | src/application/observe.rs:19-59 | In every interleaving of calls, a cached row is no error, has a positive ttl, stands under its own key and is some call's live result |
| Observe.ResultIsOwnOrFresh | src/application/observe.rs:19-59 | A result is the call's own live read, or another call's of the asked key, marked as cached and no older than the ttl and the asked age |
| Observe.HistoryIsComplete | src/application/observe.rs:47-51 | With a working recorder the history has every offered live result exactly once, error and ttl-0 rows included |
| Observe.HistoryIsTheReads | src/application/observe.rs:47-51 | With calls one after the other and a working recorder, the history is the sequence of the live results |
| Observe.CallIsItsSteps | src/application/observe.rs:19-59 | What one call may do to the store is what its steps do, uninterrupted: the two models agree |
| Observe.AllKept | src/application/observe.rs:19-59 | What is known of cache, calls and history holds in every state of every run |
| Paths.Normalize | src/config/hardening.rs:256-269 | The component loop computes the normal form |
| Paths.NormIsNormal | src/config/hardening.rs:256-269 | The normal form has names only, and an absolute path keeps its root |
| Paths.NormRules | src/config/hardening.rs:256-269 | A `.` goes, a name goes with the `..` after it, a `..` at the root goes, anywhere in a path |
| Paths.NormOfNormal | src/config/hardening.rs:256-269 | A normal path is left as it is |
| Paths.ExpandTwice | src/config/paths.rs:7-15 | Paths compared by components: expanding `~` twice is expanding once for every path, exactly when the home dir is unknown or plain: not empty, and not itself below `~/` unless it is `~` however written |
| Paths.SameResolved | src/config/hardening.rs:271-300 | What a path resolves to depends on its components only |
| Paths.ResolvedIsNormal | src/config/hardening.rs:271-295 | Without symlinks a path resolves to its normal form, below the working dir if it is relative |
| Paths.TildeIsHome | src/config/paths.rs:7-15 | `~/` at the beginning of a path, and nowhere else, stands for the home dir |
| Paths.SharedIffComparable | src/config/hardening.rs:197-206 | Two trees share a path exactly when one root is a prefix of the other |
| Scopes.Config.FoldDefaultScopes | src/config/load.rs:86-109 | The nested loops leave every agent with its own entries, the defaults where it has none, all roots expanded, and the no-shell mark of a hardened sandbox |
| Scopes.FoldAgrees | src/config/load.rs:519-530 | What the two-level lookup finds, roots expanded, is what a folded agent has and what a folded lookup finds |
| Scopes.FoldIdempotent | src/config/load.rs:86-109 | Folding is idempotent on every configuration, paths compared by components, exactly under a plain home dir |
| Scopes.GrantWorkspaceRoot | src/bootstrap/tools.rs:314-320 | The workspace on every scope but a deny, by the loop |
| Scopes.GrantOnlyAdds | src/bootstrap/tools.rs:305-320 | A grant adds that one root where no equal one is, once, takes nothing away and leaves a deny a deny |
| Scopes.ReachedIffExposed | src/config/hardening.rs:197-206 | The check's verdict is that a root contains the file, or shares some path with the directory |
| Scopes.PathErrors | src/config/hardening.rs:226-254 | An error for every named root or workspace that reaches a protected path, and for no other |
| Scopes.HardenedPathErrors | src/config/hardening.rs:41-69 | No error exactly when there is neither a signer nor [risk] nor [soe], or every root and workspace that is named contains neither the configuration file nor the absolute kill switch file and shares no path with the state dir |
| Scopes.CheckedRootsCover | src/bootstrap/tools.rs:274-320 | When the check finds nothing, no root of any tool after folding, granting the configured workspace and falling back exposes a protected path |
| Scopes.CheckHardened | src/config/hardening.rs:41-69 | In one piece: with a signer, [risk] or [soe] and no errors, no root of any tool of any run, in the configured workspace or a fresh one, contains the configuration file or the absolute kill switch file or shares a path with `<TENGU_HOME>/state` (but for the fresh workspace itself) |
| Scopes.EffectiveRoots | src/bootstrap/tools.rs:274-320 | The roots of a tool in a run spelled out: the expanded roots of the scope it finds and, unless that is a deny, the workspace; without a scope the workspace alone, and nothing in a hardened sandbox |
| Scopes.WorkspaceIsChecked | src/bootstrap/tools.rs:334-347 | The configured workspace, made absolute for a run, resolves to where the check looked |
| Scopes.HardenedFallbackIsEmpty | src/bootstrap/tools.rs:282-303 | In a hardened sandbox a tool without a configured scope gets nothing |
| Scopes.CheckSurvivesFold | src/config/load.rs:86-109 | The verdict of the check is the same before and after folding |

## Left out

- I/O, SQLite, the file system, the network, engines, the command line and the user interfaces: abstract tables and maps with failures stand for them.
- Error texts, their order and their repetition: problems are collected as sets of named problems.
- Tracing output, tokens, durations, TOML and JSON text.
- Base58.AddDigit: states the carry pass on a sequence that a local variable holds, not on a heap buffer; there is no aliasing in the source.
- Base58.Decode: a text is a sequence of one-byte characters; of a longer character the source names the first byte.
- MetricsSink: the wording of a lag report, and the other subscribers of the sink, each of which has its own cursor.
- MetricsSink.FlushAnswered: says that a forwarder left alone answers; a sender that never pauses can keep it draining, in the source too.
- LeaseRuns.OneOwner: one clock for all processes; it can be set to any value at any time, and a take's reading of it may be any value. A process owns from its last grant until its first release of the lease is tried, stopping included. One `runtime.db`, as in the source; sandboxes with different state directories exclude each other through nothing.
- OwnerLeases.GivingUpLeavesNothing: has this holder's calls only; the statements of other processes between them, and a store error reported after the row had changed, are in `LeaseRows.NothingLeftBehind`.
- DecisionLoop.ValidationErrors: the checks on names, durations, reduce rules and tool arguments, each settled by one branch, are not among the problems.
- ExecutionMap.MapNarrows: the order of the sequence, which a map replaces by design; the event of a map is a size and a kind.
- EvidenceVault.Snapshot: a record's title, provenance and vault name; that a path has no `.`, `..` or backslash, is not the manifest's name, and that a hash has 64 hex digits; lower case is that of ASCII.
- EvidenceVault.Vault.CopyIn: the directory is copied file by file in any order; symlinks, sizes on disk and permissions are not part of this model.
- EvidenceVerify.Verify: expected and actual values are compared as values instead of as the texts that show them; the order of the lines for unlisted files.
- EvidenceWindows.ReadWindows: what is decoded of a row, and the grading that follows; `market.db` bars.
- TraceReplay.ReplayChild: the payload stands for all else of a draft; redaction and the bound on a child's drafts, which are applied before.
- TraceGate: the inner sink may refuse a draft; a write is what reached it.
- Builder.Finalise: an uninterrupted call; edits and starts between its operations are in `BuilderOps`. Names and paths that resolve outside the root are refused by the store before anything, and are not part of this model.
- Builder.MakePreview: the diff, the checklist of secrets and the next commands.
- Observe.Observe: the recorder's own thinning of rows, and the other writers of the cache (`put_if_unchanged`, `remove`).
- Scopes.CheckedRootsCover: symlinks are one fixed function of normal paths, so a root that resolves otherwise when a tool runs (a link that changed, a `..` after a link, a directory made later) is not covered; a workspace that `absolute_path` finds on disk is a path of the same resolution. Of a fresh temporary workspace nothing is claimed.
- Scopes.GrantWorkspaceRoot: returns the map instead of changing the caller's.
- Scopes.Config.FoldDefaultScopes: the sandbox sections every agent is given.
- `substitute_env_vars`, engine and shell rules of a hardened sandbox, other sections' validators and default values.
