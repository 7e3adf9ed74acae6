# beep: a verified model of its map protocols

beep is an L4 load balancer for Kubernetes: eBPF programs forward packets by looking up
pinned maps, and a controller on every node keeps those maps in step with the cluster. This
project models the parts where an interleaving, a failed write or a crash could lose traffic,
and proves what they promise.

Check everything with `dafny verify dfyconfig.toml`.

## The parts

**Generation swap** (`FrontPlan`, `Steering`, `FrontSafety`, `FrontGrace`, `FrontConverge`,
`FrontResults`, `FrontFailures`, `FrontSizing`, `FrontCapacity`, `FrontRecovery`, `FrontOrder`,
`FrontWriter`, `SwapGrace`, `FrontTimed`). A front's endpoint rows are replaced under readers that look up the meta row and an
endpoint row separately. A pass is a value: the maps it read, its plans, which writes the kernel accepts, the caps. `PassTo` and
`Boundary` give the maps after any number of plans and steps, so "at every step boundary"
is a quantifier over two numbers; `History` chains passes that stopped anywhere, each planned
afresh from the maps the one before left. `FrontFailures` tells
what a pass leaves from which of its writes landed. The loops of the writer are methods proved to
compute exactly these states. `FrontTimed` adds the instants: each pass holds what `RecentSwaps`
recorded, and a reader's two lookups may fall in different passes.

**Pinned-map migration** (`RawEntries`, `RestorePlan`, `RestorePlanner`, `PinMachine`,
`PinSafety`, `PinWellFormed`, `PinLoader`, `SinglePin`). A start of the loader is a machine over the plain and
`_migrating` pins: prepare, create, write rows, write metas, unpark. An event is one step, with
a bit that says whether a write lands (or which map the load creates first), or the death of the
process. `Outcome` says what the pins should end as, by the fields of the shapes and the contents found
at first; the theorems compare every run with it. Unparking `FRONT_META` before
`FRONT_ENDPOINTS`, the order of `MAP_NAMES`, is what makes the last crash window harmless: the
next start plans from the metas already copied and the old rows, and that plan is the same
(`PlanMapsAgain`). `PinLoader` writes a whole start as the code performs it and proves it a run
of the machine. `SinglePin` is the same for any other map. A real start interleaves the steps of
all maps; each step touches one map's pins, and what one map sees of the others is at most a start
that ends early, so the two machines together cover it.

**Conntrack** (`FlowRow`, `FlowKeys`, `IdleGc`, `FlowSweep`, `MemoGc`, `PortRemap`). The row flags, the
one-bit clock of the idle sweep with rows moving between classes, the two-pass sweep with its
recheck, the recheck of a port memo in its three calls among arbitrary other writers, and the
probing for a free backend source port.

**Cluster protocols** (`Lease`, `LeaseTiming`, `PruneExact`, `Ingress`, `IngressRuns`, `TickPlan`, `TickRuns`,
`Policy`). Liveness and pruning for every schedule of passes, which
entries are pruned as told by the listings alone, the shared ingress list under every
interleaving of publishers and pruners, sweep before install under every interleaving of plans,
front writes, lookups and pins, and the endpoint policy from the Service to the steering decision.

**Arithmetic** (`FlowHash`, `Calendar`, and the slot choice in `Steering`).

## Where a promise does not hold as worded

- A restored front has "exactly slots 0 to count - 1" only if no two of its live rows share a
  slot. Raw keys that differ in padding alone are distinct and decode to the same slot;
  `PaddingHidesAGap` shows a front of two endpoints that is copied without slot 1.
  `ExactSlotsIff` gives the exact condition, and `ExactSlots` that keys with zeroed padding, the
  only ones the writers make, meet it. `NoMetaWithoutRows` needs no such condition: a visible
  front finds a slot exactly if it found it before the migration.
- The idle sweep reads a row again and removes it in two system calls, and a packet may come in
  between. `RaceRemovesAFreshRow` is such a run. `RemovesOnlyCheckedRows` says for all runs that a
  removed row was idle when it was read again, and touched since the flip if and only if a packet
  matched it between that and its removal.
- A reader one commit behind keeps its rows only through passes that hold the front.
  `UnheldPassLoses` shows that a completed pass without the hold always loses them. The hold runs
  from the start of the committing pass, the instant it is recorded with, not from the commit.
- Sweep before install fails when a flow is pinned to a pod after the plan that forgot or replaced
  that pod. A flow looks up a row and is pinned later, two events: it may find a row that outlived
  the plan, before the front's write or because that write failed (`GapPinsADepartedPod`), or find
  a current row and be pinned only after the sweep and the front's write, when no such row is left
  (`SlowFlowPinsADepartedPod`). `SweepBeforeInstall` says that exactly such flows, and pins found at
  the start, leave a foreign pin. `StalePinsAreLate` says that each of their lookups hit a front not
  written since the last plan, or began before that write. A pin's owner is the pod its row was
  installed for. A flow's lookup is one event, its meta lookup: `FrontTimed.TwoLookupsWithinGrace`
  says when its row lookup still finds the rows served then.
- The recheck of a port memo reads the memo and its reverse row, and the removal is a third call.
  `RaceRemovesALiveMemo` is a run in which the row comes after it was read. `RemovedMemoWasUnwanted`
  says that in every run a removed memo that nobody else has written is live at its removal if and
  only if another writer put a row that wants it after the row was read.
- A completed publish does not stay in the list whatever happens: a pruner writes the same list.
  `PrunerTakesACompletedEntry` is such a run. `PublishedIff` says that a node's addresses stay as it
  wants until its next call if and only if no landing prune drops one, `DroppedIsTwiceUnmatched`
  that this takes two passes in a row without a live Lease for it, and
  `RenewingNodeStaysPublished` that it never happens to a node renewing every 40 s.
- Plans whose fronts differ in padding alone tie in the sort. `PlanOrderUniqueIff` says that the
  order is determined exactly when nothing ties, and `ZeroPaddingFixesTheOrder` that zeroed padding
  is enough.
- The bound of 85 s for a silent node is met and tight to the millisecond, with passes 10 to 15 s
  apart (`BoundIsTight`).

## Model

| member | source | states |
|---|---|---|
| `FrontPlan.DesiredFront.LocalCount` | src/front_swap.rs:56-64 | The number of leading endpoints flagged local, the next one not being local; zero when local is not preferred. |
| `FrontSafety.PlanProgress` | src/front_swap.rs:259-288 | After any number of a plan's steps, with any writes failed, no other front changed, rows outside the plan are as before, and the meta is the old one unless every put landed and the commit came last. |
| `FrontSafety.UntouchedBetween` | src/front_swap.rs:375-406 | A front changes only while its own plan runs, whatever the other plans do. |
| `FrontSafety.ReaderSafety` | src/front_swap.rs:103-288 | From well-formed maps, at every boundary of every sequence of passes with any writes failing, each meta's slots below its count exist in its generation and its local prefix is flagged local. |
| `FrontSafety.AtomicSwitch` | src/front_swap.rs:103-209 | At every boundary a front serves exactly its old endpoint list, or exactly the wanted one, or was removed by pruning. |
| `FrontSafety.NewFlowIsForwarded` | common/src/lib.rs:1195-1270 | A new flow on a front with endpoints is never dropped, and lands on a local one where the meta prefers local. |
| `FrontSafety.EachEndpointHasItsShare` | common/src/lib.rs:1195-1270 | On a well-formed front endpoint i of the preferred ones gets the flows of its interval of floor or ceiling of 2^32/r hashes, and no others unless it is listed twice. |
| `FrontSafety.SteersToOldOrNew` | common/src/lib.rs:1235-1270 | A flow whose two lookups fall on one boundary of a pass reaches an endpoint of the old or of the wanted set, even of a front the pass deletes. |
| `FrontGrace.SplitSteerInOnePass` | common/src/lib.rs:1235-1270 | A flow whose meta lookup falls on one boundary and whose endpoint lookup on any later one of the pass reaches an endpoint of the old or of the wanted set, a local one if the meta it read prefers local, as long as the pass does not delete the front. |
| `FrontGrace.PassKeeps` | src/front_swap.rs:140-197 | The rows of a generation a reader holds, at most one commit behind, are unchanged slot by slot at each boundary of a pass that does not delete the front and, if one commit lies between, holds it. |
| `FrontGrace.CommittedIsDone` | src/front_swap.rs:140-197 | Once a front shows a meta it did not have before the pass, the pass never touches it again. |
| `FrontGrace.TwoLookupsInOnePass` | src/front_swap.rs:140-197 | A reader that loads the meta at one boundary of a pass finds at any later boundary of that pass exactly the rows the front served then. |
| `FrontGrace.TwoLookupsAcrossPasses` | src/front_swap.rs:452-479 | And at the end of any further passes, as long as those after one commit hold the front. |
| `FrontTimed.MovesAreReported` | src/front_swap.rs:375-406 | Whatever fails, a pass that leaves a front with another generation than it found reports it as swapped. |
| `FrontTimed.TwoLookupsWithinGrace` | controller/src/apply.rs:235-256 | With each pass holding what was recorded, a reader's second lookup in a later pass finds exactly the rows served at its first, if no pass deletes the front, at most one swaps it, and after that passes start less than the grace after the start of the swapping one. |
| `FrontTimed.SplitSteerWithinGrace` | controller/src/apply.rs:235-256 | So a new flow with its lookups that far apart still reaches an endpoint the front served, a local one where that is preferred. |
| `FrontTimed.FrontMaps.ApplyFrontMaps` | controller/src/apply.rs:235-256 | One pass in place is a timed pass: it holds what was recorded less than the grace before its start, and records its swaps with that start. |
| `FrontResults.UnheldPassLoses` | src/front_swap.rs:140-197 | A completed pass that keeps a front without holding it leaves a reader one commit behind without its slots. |
| `FrontConverge.UsageIsExact` | src/front_swap.rs:304-314 | With no write failing, `used` equals the true sizes of both maps after any number of plans. |
| `FrontConverge.PassIsDone` | src/front_swap.rs:375-406 | With no write failing and nothing refused, every front ends up with exactly the rows and meta its plan aims for. |
| `FrontResults.Converges` | src/front_swap.rs:103-209 | Then each desired front serves exactly its endpoints, flags and local count; its generation moved if and only if rows, count or local count differed; pruned fronts have no meta and no row left. |
| `FrontResults.ReplanIsEmpty` | src/front_swap.rs:103-209 | Replanning after such a pass, with the swapped and already held fronts kept, yields no plan. |
| `FrontSizing.UsageBoundsMaps` | src/front_swap.rs:304-314 | Whatever fails or is refused, `used` is never below the true size of either map. |
| `FrontSizing.EffectOf` | src/front_swap.rs:319-333 | A front's plan deletes before it puts, so its endpoint peak is its net growth or zero, and its meta peak one only for a new front. |
| `FrontSizing.NeverRefused` | src/front_swap.rs:338-406 | With at most F fronts of at most E endpoints, no generation over E rows, maps within caps F and 2FE, pruning on and writes landing, no plan of the pass is refused. |
| `FrontSizing.SizingRepeats` | src/front_swap.rs:204-207 | Such a pass leaves generations of at most E rows and at most 2FE rows in all, so the next pass starts as well sized. |
| `FrontSizing.FrontMapMaxEntries` | src/lib.rs:538-555 | The caps are F and 2FE, and are refused exactly when a factor is zero or 2FE does not fit 32 bits. |
| `FrontCapacity.RefusedIffOverfull` | src/front_swap.rs:338-359 | From maps within their caps and writes landing, a plan is refused if and only if some step of it would overfill a map. |
| `FrontCapacity.NeverOverfull` | src/front_swap.rs:375-406 | With writes landing, maps within their caps stay within them at every boundary of a pass, refused plans or not. |
| `FrontRecovery.RecoversFromFailures` | src/front_swap.rs:338-406 | From maps within caps F and 2FE whose rows are zero-padded slots below E, and after any sequence of passes, whatever failed, was refused or stopped where, that wanted at most E endpoints of a front and whose writes the kernel kept within the caps, the first pruning pass whose writes land, of at most F fronts wanted or present, is not refused, and leaves every desired front as wanted and nothing of any other. |
| `FrontOrder.PlanOrderUniqueIff` | src/front_swap.rs:204-207 | The order of a pass's plans is determined if and only if the sort key tells the planned fronts apart. |
| `FrontOrder.PlanOrderIsDeterministic` | src/front_swap.rs:204-207 | Then it is the same whatever order the endpoint map is iterated in. |
| `FrontOrder.ZeroPaddingFixesTheOrder` | src/front_swap.rs:204-207 | It is if every front's padding is zero. |
| `FrontWriter.GroupByFront` | src/front_swap.rs:103-209 | Grouping keeps, for each front, exactly its keys in map order. |
| `FrontWriter.PlanFront` | src/front_swap.rs:103-209 | The steps pushed branch by branch are the front's deletes, puts and commit in order. |
| `FrontWriter.InsertSorted` | src/front_swap.rs:204-207 | One insertion keeps the plans sorted by net rows, address, port and protocol, and adds only the new plan. |
| `FrontWriter.PlanFrontWrites` | src/front_swap.rs:103-209 | Exactly the fronts that need writes get one plan, the one they need, smallest net growth first. |
| `FrontWriter.FrontTables.RunFrontPlan` | src/front_swap.rs:259-288 | Running a plan in place leaves the maps, the count and the commit flag the step machine says, and lists exactly the steps that failed, in order. |
| `FrontWriter.FrontTables.RunFrontPlans` | src/front_swap.rs:375-406 | Running all plans leaves the pass's final maps, its swapped fronts, and one failure per refused plan and failed step, with its front, in order. |
| `FrontWriter.FailuresIff` | src/front_swap.rs:375-406 | The failures are empty exactly when no plan was refused and no write failed. |
| `FrontFailures.ServedIff` | src/front_swap.rs:259-288 | Whatever fails or is refused in a pass, a wanted front ends with exactly the wanted endpoints, flags and local count, under the planned generation, if and only if its puts and its meta write land; failed deletes do not matter, and otherwise it keeps its meta. |
| `FrontFailures.ReportedIff` | src/front_swap.rs:375-406 | It is reported as swapped if and only if they land and its rows, count or local count differed. |
| `FrontFailures.RowSurvivesIff` | src/front_swap.rs:140-197 | A row the pass does not write anew is gone after it if and only if it is neither of the live generation nor held and its own delete landed; else it is unchanged. |
| `FrontFailures.PrunedIff` | src/front_swap.rs:259-288 | A pruned front loses its meta if and only if that delete lands; if not, it keeps its rows as well. |
| `FrontWriter.ComputeEffect` | src/front_swap.rs:319-333 | The accumulator loop computes the plan's net and peak. |
| `SwapGrace.RecentSwaps.Record` | src/front_swap.rs:465-469 | Expired holds are forgotten, then every swapped front's grace starts now. |
| `SwapGrace.RecentSwaps.Expired` | src/front_swap.rs:474-478 | Whether some recorded front is no longer held. |
| `SwapGrace.HeldForTheGrace` | src/front_swap.rs:452-479 | Through any sequence of recordings a front stays held by passes that start within the grace of the instant last recorded for it, the start of the pass that swapped it. |
| `SwapGrace.NotHeldAfterTheGrace` | src/front_swap.rs:452-479 | And without another commit it is not held after that. |
| `Steering.SlotInRange` | common/src/lib.rs:1170-1175 | A slot below n for every hash; none exactly when n is zero. |
| `Steering.EvenSpread` | common/src/lib.rs:1170-1175 | The hashes of a slot form one interval of floor or ceiling of 2^32/n of them. |
| `Steering.SelectsByShare` | common/src/lib.rs:1195-1205 | The slot is s if and only if the hash lies in the s-th of r consecutive intervals, each of floor or ceiling of 2^32/r hashes, r being the local count if there is one, else the count. |
| `Steering.SteerIff` | common/src/lib.rs:1235-1270 | Whatever the maps hold, a flow without a pin is sent to a backend and port if and only if the row of its hash's slot names them and is flagged local where locals are preferred. |
| `Steering.SelectEndpointSlot` | common/src/lib.rs:1195-1205 | None exactly when no endpoint is ready or the local count exceeds the ready one; else below the local count if there is one. |
| `Steering.Steer` | common/src/lib.rs:1235-1270 | An established pin, else a pending one, decides alone, whatever the maps hold. |
| `RawEntries.DecodeEndpointKeyInjective` | src/pin_migrate.rs:74-80 | No two raw keys decode to the same endpoint key. |
| `RawEntries.EndpointKeyRoundTrip` | src/pin_migrate.rs:74-80 | Decoding the little-endian layout of an endpoint key gives that key back. |
| `RawEntries.MetaRoundTrip` | src/pin_migrate.rs:74-80 | So does decoding the layout of a meta value, whatever its padding. |
| `RawEntries.EndpointRoundTrip` | src/pin_migrate.rs:74-80 | And that of an endpoint value. |
| `RestorePlan.PlanRespectsCaps` | src/pin_migrate.rs:141-165 | The copied fronts and their rows stay within both caps, and the running row count is the true total. |
| `RestorePlan.AccountsForEveryMeta` | src/pin_migrate.rs:129-165 | For distinct keys, copied plus dropped is the number of decodable metas. |
| `RestorePlan.CopiedExactly` | src/pin_migrate.rs:129-165 | A front is copied if and only if its key and value decode, the snapshot has as many entries for its live slots as its count says, and both caps leave room for it after the fronts with smaller keys. |
| `RestorePlan.LiveRowsAre` | src/pin_migrate.rs:146-153 | The rows copied with a front are exactly the snapshot's rows of its live generation below its count. |
| `ByteOrder.LessIff` | src/pin_migrate.rs:129-140 | Keys compare as byte strings: the first difference decides, and a prefix is smaller. |
| `RestorePlan.ExactSlotsIff` | src/pin_migrate.rs:147-154 | A complete front's rows are slots 0 to count - 1 in order if and only if no two rows found for it share a slot. |
| `RestorePlan.ExactSlots` | src/pin_migrate.rs:90-175 | With distinct keys of zeroed padding, a complete front's i-th row is the row of slot i of its live generation. |
| `RestorePlan.PaddingHidesAGap` | src/pin_migrate.rs:147-154 | A concrete snapshot with distinct raw keys whose front of two endpoints is complete without slot 1. |
| `RestorePlan.PlanMapsAgain` | src/pin_migrate.rs:84-89 | Planning again from only the copied metas and the same rows makes the same plan. |
| `RestorePlanner.GroupByGeneration` | src/pin_migrate.rs:117-128 | The rows of each front and generation, in snapshot order; undecodable keys are left out. |
| `RestorePlanner.SortMetas` | src/pin_migrate.rs:129-140 | The decodable metas, in key order. |
| `RestorePlanner.PlanRestore` | src/pin_migrate.rs:90-175 | The loop with running totals and removals returns the fronts and the dropped count of the specification. |
| `PinSafety.MigrateFate` | src/lib.rs:831-871 | From every state a started migration can be left in, the two maps again share the fate Migrate, until it is over and the fate is Keep. |
| `PinSafety.ResetFate` | src/pin_migrate.rs:44-53 | From every state a started reset can be left in, the pair is reset again, until both maps are missing or empty and new. |
| `PinSafety.MigrateStep` | src/lib.rs:891-990 | Every step of a start, whether its write lands or not, keeps the migration invariant: sources parked, new maps partial and backed, or done. |
| `PinSafety.MigrateCrash` | src/lib.rs:872-890 | Dying at any point of a start leaves pins the next start can go on from. |
| `PinSafety.CompletedIsOutcome` | src/lib.rs:606-652 | After any history of dead and failed starts, one that completes leaves both pins as found if all compared fields match; exactly the planned fronts if both maps keep type, key and value size and each that changes is HASH or LRU_HASH; and both maps new and empty otherwise. |
| `PinSafety.NoMetaWithoutRows` | src/pin_migrate.rs:364-413 | At every moment of every run the pins are still those found at first, or every visible meta is one of those and finds a slot's row exactly if it did at first. |
| `PinSafety.ZeroPaddedFrontsFindTheirRows` | src/pin_migrate.rs:364-413 | If every endpoint key found at first has zeroed padding, then every visible meta finds a row for each of its slots. |
| `PinWellFormed.MigrationKeepsWellFormed` | src/lib.rs:606-652 | From pins that read as well-formed front maps, the pins can be read at every moment of every run, and every reading is well-formed with each visible front serving what it served at first, so the swap's theorems apply to what a start leaves. |
| `PinSafety.Recovers` | src/lib.rs:606-652 | After any history, one more start left alone does complete, with that outcome. |
| `PinLoader.TakeSnapshot` | src/pin_migrate.rs:210-251 | Reading a quiet map yields its entries in key order, each once. |
| `PinLoader.PrepareMap` | src/lib.rs:955-974 | Parking, dropping or leaving a map's pins takes the machine's one or two steps. |
| `PinLoader.PinnedMaps.RecreateMismatched` | src/lib.rs:891-982 | Preparing both maps in place is a run of the machine to the load. |
| `PinLoader.PinnedMaps.CreateMissing` | src/lib.rs:634-645 | The load creates exactly the missing maps, in either order. |
| `PinLoader.PinnedMaps.WriteRowsOf` | src/pin_migrate.rs:341-362 | One flag for each entry written, as the machine records them. |
| `PinLoader.PinnedMaps.WriteMetas` | src/pin_migrate.rs:387-413 | Metas go in only for fronts whose rows all landed; success means no write failed. |
| `PinLoader.PinnedMaps.ApplyPlan` | src/pin_migrate.rs:368-413 | Applying a plan in place is a run of the machine that ends at unparking, or in a failed start. |
| `PinLoader.PinnedMaps.UnparkMigrated` | src/lib.rs:985-990 | The parked pins go, the meta map's first. |
| `PinLoader.PinnedMaps.Restore` | src/lib.rs:995-1014 | Snapshot, plan, apply and unpark are a run of the machine to its end. |
| `PinLoader.PinnedMaps.LoadEbpf` | src/lib.rs:606-652 | After any history of starts from first pins, a whole start is a further run of the machine, and if it succeeds the pins are the outcome of the first ones. |
| `SinglePin.CompletedIsOutcome` | src/lib.rs:855-990 | The same for any other map by its own fields: as found, its first entries in a new map, or a new and empty map. |
| `SinglePin.CarriedAreTheFirst` | src/pin_migrate.rs:100-114 | What such a map carries are its smallest keys, as many as fit the new cap, and all of them if they fit. |
| `FlowRow.FlowStepFlags` | common/src/lib.rs:1428-1466 | The accumulator form decides as the step on an optional row. |
| `FlowRow.RepeatKeeps` | common/src/lib.rs:1407-1466 | Repeating a packet at the same parity after a write is always a Keep. |
| `FlowRow.RowLifecycle` | common/src/lib.rs:1407-1466 | Over any trace a row exists if and only if a non-RST packet arrived, and is closed if and only if, since the last SYN or its creation, an RST or FINs from both sides were seen. |
| `FlowKeys.DecodeEncode` | common/src/lib.rs:85-168 | Decoding an encoded flow key returns the tuple, the direction and the protocol. |
| `FlowKeys.EncodeDecode` | common/src/lib.rs:85-168 | Encoding what a tagged key decodes to returns the key. |
| `IdleGc.Invariant` | common/src/lib.rs:1344-1466 | In every interleaving of packets, evictions, rechecks, removals and flips, failed or not, a row's parity bit is stale if and only if its class flipped exactly once since its last packet, and a running sweep still has every stale row ahead or in hand. |
| `IdleGc.RemovesOnlyCheckedRows` | src/lib.rs:459-521 | A removed row was, when it was read again, untouched since the last flip and of the sweep's class: a UDP or closed TCP row for the UDP sweep, an open TCP row for the TCP sweep. At its removal it has been touched since if and only if a packet matched it in between. |
| `IdleGc.RaceRemovesAFreshRow` | src/lib.rs:459-463 | A run from an empty table in which a packet falls between the two calls and a row with a fresh parity bit is removed. |
| `IdleGc.LeavesNoneIdle` | controller/src/main.rs:413-475 | A UDP sweep that finished without a failed delete leaves no UDP or closed TCP row that no packet touched since the last UDP flip, and a TCP sweep no such open TCP row. |
| `IdleGc.NeverTwoFlipsOld` | common/src/lib.rs:1344-1374 | No row survives two flips of its class untouched, however it moved between classes. |
| `FlowSweep.SweptRows` | src/lib.rs:416-442 | The first pass finds exactly the stale rows of the class and keeps the client port of every surviving reverse row. |
| `FlowSweep.UnwantedMemos` | src/lib.rs:416-457 | The second pass finds exactly the memos no surviving reverse row wants. |
| `FlowSweep.IdleFlowKeys` | src/lib.rs:416-442 | Together they list exactly the keys to delete, each once. |
| `FlowSweep.RecheckAgrees` | src/lib.rs:464-487 | Whatever doomed keys are already gone, the recheck still finds exactly the others idle. |
| `FlowSweep.FlowTable.SweepIdleFlows` | src/lib.rs:496-521 | On a quiet table the sweep removes exactly the specified keys, in any order of deletion; then every memo points at a reverse row that is there and records its client port, and no memo of such a row was removed. |
| `FlowSweep.MemoFindsItsRow` | src/lib.rs:445-457 | A flow's memo leads to the reverse key of that flow with its port replaced. |
| `MemoGc.RemovedMemoWasUnwanted` | src/lib.rs:459-521 | Whatever others put and erase meanwhile, a removed memo was read, and its row then read did not want it; if nobody else has written the memo since, it is live at its removal if and only if someone put a wanting row after that row was read and nobody wrote it again. |
| `MemoGc.RaceRemovesALiveMemo` | src/lib.rs:459-463 | A run in which a memo's row comes between its recheck and its removal. |
| `MemoGc.RecheckIsTheSweeps` | src/lib.rs:464-487 | On a table at rest the memo's recheck decides as the snapshot did. |
| `PortRemap.ResolveBackendSrcPort` | common/src/lib.rs:1023-1043 | The probing loop returns the specified decision. |
| `PortRemap.ProbeIsFirstUsable` | common/src/lib.rs:1023-1043 | A remap is the first usable candidate; exhaustion means none is. |
| `PortRemap.CandidatesAreConsecutive` | common/src/lib.rs:1023-1043 | The ports tried are consecutive from 49152 plus the seed, with 49152 after 65535. |
| `PortRemap.CommitIsFree` | common/src/lib.rs:1023-1074 | The row under a committed port is missing, closed or this flow's own. |
| `PortRemap.RepeatedResolve` | common/src/lib.rs:1023-1074 | A repeated resolve returns the flow's own committed port while the other occupants stay. |
| `PortRemap.ExhaustedIff` | common/src/lib.rs:1023-1043 | Exhausted if and only if the natural port is taken and no candidate is usable. |
| `PortRemap.ExhaustedIsFull` | common/src/lib.rs:1023-1103 | Then at least 15 distinct ports of the dynamic range (section 6 of RFC 6335) are held by other live flows. |
| `PortRemap.LiveRowsPersist` | common/src/lib.rs:1023-1074 | Over every sequence of opens, closes and evictions only its own close or eviction ends a live reverse row. |
| `FlowHash.FlowHash` | common/src/lib.rs:1127-1148 | The accumulator loop is the fold of the mixer followed by the finalizer. |
| `FlowHash.MixIsBijective` | common/src/lib.rs:1105-1108 | Each mixing step can be undone in both its inputs. |
| `FlowHash.FinalizeIsBijective` | common/src/lib.rs:1127-1148 | So can the finalizer. |
| `FlowHash.HashKeepsEachWord` | common/src/lib.rs:1105-1148 | Word lists that differ in one word have different hashes. |
| `FlowHash.PortsNeverCollide` | common/src/lib.rs:1127-1148 | Two flows that differ only in the client's source port never share a hash. |
| `FlowHash.OneFieldChangesTheHash` | common/src/lib.rs:1127-1148 | Nor do two that differ in one 32-bit word of an address, one half of the seed, either port or the protocol. |
| `FlowHash.PortCountsUnlessAffine` | common/src/lib.rs:1153-1166 | Two flows of one client to one front from different ports share a hash if and only if the front asks for client affinity. |
| `Calendar.Successor` | controller/src/lease.rs:81-99 | For every day number, negative ones included, the next day has the successor date under the Gregorian leap rules. |
| `Calendar.CivilIsRight` | controller/src/lease.rs:81-99 | The date computed for a day is the one reached by counting from 1 January 1970, and is valid. |
| `Calendar.DatesIncrease` | controller/src/lease.rs:81-99 | Later days have later dates, so no two days share one. |
| `Calendar.MicroTimeIsRight` | controller/src/lease.rs:81-99 | The stamp has that date, a valid time of day (section 5.6 of RFC 3339), and counts the seconds exactly. |
| `Calendar.MicroTimeIncreases` | controller/src/lease.rs:81-99 | Later seconds get later stamps, so stamps order as instants do and no two share one. |
| `Lease.LeaseTracker.ObserveListing` | controller/src/lease.rs:260-276 | A listing replaces what was known; an unchanged renew time keeps its first sighting. |
| `Lease.PruneSuspects.ConfirmedPrunedIngress` | controller/src/lease.rs:355-376 | Drops exactly the unmatched entries that were suspects before, records the unmatched ones, and reports nothing when nothing is dropped. |
| `LeaseTiming.PrunePass` | controller/src/main.rs:504-548 | One pass over all Services is one step of the pruner and leaves the specified lists. |
| `PruneExact.PrunesIff` | controller/src/lease.rs:282-299 | A pass may prune if and only if the process is up for 40 s and its own Lease is listed and has not shown one renew time at every pass for 40 s. |
| `PruneExact.DroppedIff` | controller/src/main.rs:504-548 | An entry is dropped if and only if this pass and the one before may prune and both found its address on no listed Lease that renews. |
| `PruneExact.GuardedPassesDropNothing` | controller/src/main.rs:504-548 | A pass that may not prune leaves every list as it is, and so does the next one. |
| `LeaseTiming.DeadNodeLeaves` | controller/src/lease.rs:63-70 | For every schedule with gaps of at most 15 s, the own Lease live and patches landing, a silent node's address is out of every list within 85 s of the later of its last write and the pruner's start, and at every later pass. |
| `LeaseTiming.WithdrawnNodeLeaves` | controller/src/lease.rs:63-70 | A withdrawn address is out within max(30, 70 - T) s for a pruner up T s, and at every later pass. |
| `LeaseTiming.RenewingNodeIsNeverRemoved` | controller/src/lease.rs:240-299 | No pass removes an entry of a node that renews at least every 40 s, however close the passes. |
| `LeaseTiming.RenewingNodeStays` | controller/src/lease.rs:328-376 | With passes at least 10 s apart, renewing every 50 s is enough: the second sighting is what protects it. |
| `LeaseTiming.BoundIsTight` | controller/src/lease.rs:46-70 | A schedule with gaps of 10 to 15 s whose first five passes leave the address and whose sixth comes 1 ms before the bound. |
| `Ingress.MergedIngress` | controller/src/status.rs:53-83 | Nothing exactly when no own entry is stale and every wanted address is there, else the corrected list. |
| `Ingress.OthersUntouched` | controller/src/status.rs:53-83 | A publish neither removes nor reorders another node's entries. |
| `Ingress.OwnAreWanted` | controller/src/status.rs:53-83 | Of a node's own addresses the merged list carries exactly the wanted ones. |
| `Ingress.UnchangedIff` | controller/src/status.rs:53-83 | Correcting the list changes nothing if and only if no own entry is stale and every wanted address is there. |
| `IngressRuns.PublishedIff` | controller/src/status.rs:138-199 | In every interleaving of publishers and pruners, from a node's completed call to its next its own addresses are listed exactly as it wants if and only if no landing prune dropped one of them. |
| `IngressRuns.DroppedIsTwiceUnmatched` | controller/src/main.rs:504-548 | A landing prune only drops an address that two passes of its pruner in a row found on no live Lease. |
| `IngressRuns.RenewingNodeStaysPublished` | controller/src/main.rs:504-548 | A node that renews at least every 40 s stays published after a completed call, under any pruners and publishers. |
| `IngressRuns.PrunerTakesACompletedEntry` | controller/src/main.rs:526-537 | A run in which a pruner removes a completed node's entry. |
| `IngressRuns.NoPublishTouchesOthers` | controller/src/status.rs:138-199 | No publisher's event removes or reorders an entry that is not its own. |
| `TickPlan.Planner.PlanTick` | controller/src/apply.rs:453-520 | One tick evicts the specified addresses, hands out the specified plan and updates what is known. |
| `TickRuns.SweepBeforeInstall` | controller/src/apply.rs:145-212 | In every run of plans, front writes, lookups and pins, with sweeps and writes failing arbitrarily, a front handed out names an address with a pin made for another pod if and only if a flow was pinned to that pod when the planner no longer knew it there, or such a pin was there at the start, and nothing removed it since. |
| `TickRuns.CurrentPinsAreSafe` | controller/src/apply.rs:453-520 | Without such flows no front is handed out over another pod's pin. |
| `TickRuns.WrittenRowsAreCurrent` | controller/src/apply.rs:145-212 | In every run that begins so, as after a restart, a front written since the last plan has only rows of pods the planner knows. |
| `TickRuns.StalePinsAreLate` | controller/src/apply.rs:145-212 | With nothing in flight at first, a flow pinned to a pod the planner no longer knows there made its lookup, and every flow that found that pod did, on a front not written since the last plan or before that write. |
| `TickRuns.FailedSweepKeepsRows` | controller/src/apply.rs:482-499 | A plan whose sweep failed makes no row stale. |
| `TickRuns.GapPinsADepartedPod` | controller/src/apply.rs:178-190 | A run from an empty start in which traffic through an unwritten front pins a departed pod, and its address is handed out to another. |
| `TickRuns.SlowFlowPinsADepartedPod` | controller/src/apply.rs:178-190 | A run from an empty start in which a flow that looked up a current row is pinned after the sweep and the front's write, when no row is left, and its address is handed out to another. |
| `TickPlan.OnlyNamedAreHeld` | controller/src/apply.rs:482-519 | A pending address holds back exactly the fronts and rows that name it; pruning is on exactly when no front is held back. |
| `TickPlan.DeletesOnlyWhatIsSwept` | controller/src/apply.rs:453-520 | A failure is reported exactly if there was something to sweep and it failed; no row is deleted then, and otherwise exactly the installed rows no longer wanted, all of them swept. |
| `TickPlan.HeldBackIsUntouched` | controller/src/apply.rs:482-519 | A held-back front keeps its meta and rows at every boundary of the pass that writes the others. |
| `TickRuns.PinSurvivesIff` | controller/src/apply.rs:375-387 | Exactly which pins of an installed backend a successful tick leaves. |
| `Policy.Select` | controller/src/reconcile.rs:430-471 | A filter keeps exactly the candidates that pass. |
| `Policy.ReachedMeans` | controller/src/reconcile.rs:640-665 | A flow reaches a candidate if and only if it is sent to its pod's octets, its port in network byte order, and its node's octets, four of them in the host's order. |
| `Policy.OnlyLocalGoes` | controller/src/reconcile.rs:430-471 | A new flow reaches a ready local pod, else a draining local one, else a ready remote one, else is dropped. |
| `Policy.PreferLocalGoes` | controller/src/reconcile.rs:430-453 | A ready local pod if there is one, else any ready one, else a drop. |
| `Policy.UniformGoes` | controller/src/reconcile.rs:430-453 | A ready pod, else a drop. |
| `Policy.UniformAgrees` | controller/src/reconcile.rs:430-453 | Two nodes that see the same ready pods in any order give one hash the same pod. |
| `Policy.OnlyLocalEndToEnd` | controller/src/reconcile.rs:610-678 | After a completed pass the front's new flows go where OnlyLocal says. |
| `Policy.PreferLocalEndToEnd` | controller/src/reconcile.rs:610-678 | After a completed pass the front's new flows go where PreferLocal says. |
| `Policy.UniformEndToEnd` | controller/src/reconcile.rs:610-678 | Two nodes, each after its own completed pass, send a flow of one hash to the same pod. |
| `Policy.NewFlowsGo` | controller/src/reconcile.rs:430-471 | For every policy, by the fields of the pods: a new flow reaches a pod that is ready and not terminating, on this node if one is here and the policy prefers it; a terminating pod only under OnlyLocal, serving and here while none here is ready; and it is dropped exactly if there is neither. |
| `Policy.AffinityEndToEnd` | controller/src/reconcile.rs:610-678 | After a completed pass all new flows of one client of a Service with client affinity go to one place. |
| `Policy.NoAffinityEndToEnd` | controller/src/reconcile.rs:610-678 | Without affinity flows from two of its ports have different hashes. |

## Left out

- The packet hooks in `ebpf/src/main.rs`: only the pure decision functions they call are modelled. How the forward hook reuses a port memo is not part of this model.
- The gap between the two system calls inside a repin (src/lib.rs:779-787): one step here.
- A snapshot that cannot be read, which recreates that map empty; a request or a source that changes between starts; other writers of the new maps during a restore; legacy pins.
- Endpoint lists longer than 65535, whose count the code truncates to 16 bits.
- Map types: only the two restorable ones are told from the rest; the ELF, `bpf(2)`, bpffs and aya layers are finite maps whose writes land or change nothing.
- `RawEntries.EndpointKeyRoundTrip`: assumes a little-endian host; the source reads the host's own order.
- `FrontCapacity.NeverOverfull`: for writes that land; after a failed delete the peak was computed too low and it is the kernel that refuses the surplus put, which the pass counts as a failed write.
- `evict_pod_flows` as a walk over the tables: an eviction is an event that removes rows or pins.
- `FrontWriter.FrontTables.RunFrontPlans`: a failure is its front and step; log lines, messages, failure kinds and errno texts are not modelled.
- `FrontTimed.TwoLookupsWithinGrace`: passes run to their end; the record of swaps is in memory, so a controller that dies mid-pass holds nothing afterwards.
- `PortRemap.ResolveBackendSrcPort`: does not model how the seed is folded from the front's address, because the theorems hold for any starting offset.
- `FlowHash.FlowHash`: takes 32-bit words; the splitting of the seed and of addresses into them is not modelled.
- `FlowRow.FlowStepFlags`: models the five flag bits as booleans; other bits of the word are never read or written.
- `IdleGc.Invariant`: covers forward and reverse rows, port memos have their own machine in `MemoGc`; the timing of the sweep's buckets is not modelled, only the order of its events.
- `FlowSweep.FlowTable.SweepIdleFlows`: on a quiet table; rows that change during the walk are covered by the event machine of `IdleGc`.
- `TickRuns.SweepBeforeInstall`: covers ticks whose pod targets and pod uids are known; the orphan-sweep latch and `NODE_ALLOW` are outside. A front's write is one event: at each of its boundaries a lookup finds the old endpoints, the new ones or none (`FrontSafety.AtomicSwitch`), and flows in between are the ones in flight. A sweep's walk is one event; a flow pinned during it behind the walk counts as pinned after it.
- `IngressRuns.PublishedIff`: wants are fixed per node; the delays between retries, a Service deleted meanwhile and a patch that lands although its answer is lost are outside. Pruners may retry any number of times.
- `Calendar.MicroTimeIsRight`: the fields of the stamp, not their text with its zero-padded microseconds.
- `PruneExact.DroppedIff`: a loop turn whose listing failed is no pass, as in the code.
- `LeaseTiming.DeadNodeLeaves`: listings succeed at every pass and each pass's patch lands before the next; writing and withdrawing Leases over HTTP is outside.
- Which Services publish an ingress at all, address families, named ports, `RetryBackoff`, `PublishRetry` and the seed Secret.
