# WPI in Dafny: model and proofs

WPI moves model weights between GPU nodes. This project models the state and the arithmetic around the
CUDA, NCCL and Kubernetes calls and proves what the parts keep, alone and together. `dafny verify
dfyconfig.toml` checks the whole project (Dafny 4.11).

## What is modelled

- **Buffer table** (`DriverState`, `DriverInvariants`, `DriverAccounts`, `Staging`, `Relocation`, `Driver`). `KNOWN_CLAIMS` and
  `ALLOCATED_BUFFERS` with reference counts, prefix-based bulk release, copies relocated to another GPU,
  live CUDA handles and open descriptors. One handler call is one atomic step. The class `Driver.Driver`
  updates the maps as the handlers do; `DriverState` is the same as functions on a state value, and the
  invariants are about runs of those. `Keys` is the grammar of the generated keys, `Text` Python's decimals
  and `split`, `Arithmetic` the granularity rounding.
- **Propagation** (`Handshake`, `HandshakeRoundTrip`, `Propagation`, `PropagationProofs`,
  `PropagationTheorems`, `Requests`, `Fragmentation`). The header is parsed from a fragmented stream; a cluster is a map from hosts to
  driver states; a request becomes a plan of legs in rank order; NCCL forms a communicator with one rank per
  GPU, matches collectives and copies bytes, leg after leg; PRE_UPDATE and READY are sent on the way.
  `Notify` is the signal protocol of one buffer, with its content.
- **Packing** (`Packing`, `PackingProofs`), **topology** (`Topology`) and **end-to-end delivery** (`EndToEnd`): each
  worker has a host, a GPU and a notify connection, and reads through the memory that its GPU maps. `TrainingLoop` is
  about any number of syncs.
- **Operator and plugin** (`Conditions`, `Shards`, `BufferController`, `ClaimController`, `Plugin`, `ShardAssignment`,
  `ShardScatter`).

What CUDA, NCCL, sockets, clocks and the API server answer is a parameter of the step that asks: fresh
handles, allocations that fail at once or half-way, copies and frees that fail, fragments, lost updates, and what
NCCL leaves where its behaviour is not defined. Device bytes are `DriverState.Byte`; wire bytes are `string`, one
char per byte, text in its UTF-8 form. Identifiers follow section 2.1 of RFC 1123 where a lemma asks for ids without
underscore or newline.

Main results: `EndToEnd.Delivery` with `OnStagedGpuIff`, `TrainingLoop.LoopServes`, `Requests.ScatterExactly`,
`Fragmentation.DeliversOnAnyWire`, `HandshakeRoundTrip.RoundTripExactly`, `DriverAccounts.Ledger` with
`FreedWhileClaimed` and `OutlivesClaimsIff`, `DriverAccounts.Conservation`, `DriverInvariants.TreeStep`,
`Staging.ShardsSpread`, `Relocation.FdHandedOutIff` with `CopyIsSnapshot`, `Notify.InvRun` with `WaitCopiedIff`,
`PackingProofs.ReadsIff`, `Shards.FilledIffDistinct`, `BufferController.TableOfLast` with
`ClaimController.ResolvesFromTable` and `ValidatesIff`.

## Where the code does less than one might expect

The model follows the code. Each point is a proved lemma; most give the exact condition.

- A rollout worker whose `LOCAL_RANK` is not the GPU of the staged buffer maps a relocated copy, which no transfer
  refreshes: it reads the sent list exactly if its copy shows it already or is made afterwards (`OnStagedGpuIff`,
  `CopyMadeAfterwards`, and the input `OtherGpuReadsOld`). A trainer on another GPU packs into a copy that is never sent
  (`UnfedSees`). Over whole runs a copy is a snapshot (`CopyIsSnapshot`, `CachedCopyAfterOverwrite`), through any number of
  syncs (`OwnCopyForever`).
- Reference counts: the claim is recorded before the allocation, so a failed allocation followed by a successful
  one frees a buffer that a claim still maps to (`FreedWhileClaimed`, `FailedAllocationFreesClaimedBuffer`). A buffer
  outlives its claims exactly when one of them was staged again (`LeftWithoutClaim`, `CountsClaimsAndRestagings`); all
  engine workers of a host share one claim, so W of them leave W - 1 references (`EngineLeavesReferences`).
- A staging that does not find its source fails, but leaves the buffer tracked: later stagings of it succeed, while nobody
  serves its descriptor until it is released and staged anew (`OkWithoutServer`, `UnservedIff`).
- A run leaks handles or descriptors exactly when in one of its steps a free fails, or a staging or relocation raises after
  the memory was created; nothing that is lost comes back (`ConservationStep`, `Conservation`, `LeakStays`). `free` is called
  with the requested, not the mapped length: all memory comes back exactly when the size is a multiple of the granularity,
  if CUDA unmaps only whole mappings (`ReleaseConservesIff`).
- A header that is cut where the first receive loop ends raises up to the end of its second line; behind it, it is
  misread without an error: no range, and header text inside the NCCL id (`CutHeader`, `CutAnywhere`). Either way the call
  does not deliver (`DeliversOnAnyWire`).
- A call that is refused, or hangs, leaves consumers with a PRE_UPDATE and no READY (`SignalsSent`). A scatter that hangs
  at an empty range has overwritten the targets before it (`StuckScatterOverwrites`).
- `PRE_UPDATE` promises that weights are about to change, but a process on the trainer's node packs the shared
  buffer before `NodePropagate` sends it: a READY stays true until such a write (`ReadyStaysTrue`), which is not announced and
  falsifies it exactly when it writes something else (`WriteAfterReady`).
- `wait_for_ready` is documented to block until READY, and returns at the PRE_UPDATE of a transfer, before its
  copy (`WaitReturnsBeforeCopy`). READY in the received chunk means that an update has arrived exactly when it was sent
  after the consumer began to wait for that update, and not for a copy made before (`WaitCopiedIff`). After an early return
  the READY left unread ends the next wait at once and tells nothing (`StaleReady`, `UnreadReady`).
- A scatter writes at the source's offset inside the target's own buffer. The design document's sharded scatter
  into buffers staged by the plugin fits for shard 0 only, tiny shards apart (`ScatterFitsShardBufferIff`,
  `OnlyShardZeroFits`).
- A scatter of an empty range does not meet the target's collective (`CollectivesMeet`). Of an odd bucket the
  last byte is not sent: a list that needs it arrives exactly when that byte was there before (`SeenStarts`).
- `receive_weights` raises at the first name whose offset its itemsize does not divide (`ReadBackExactly`).
- Duplicate shard indices pass discovery and leave a hole (`FilledIffDistinct`); a negative capacity loses its
  remainder (`EvenSplitConserves`), and a pattern drops it always (`PatternSumsIff`); below one byte per shard the plugin's share turns into the driver's default
  (`StagedWithinShareIff`).
- `AssignedShardIndex` is stored only when the Validated status flips (`AssignedAtLastFlip`, `StaleAssignment`). The plugin
  stages that shard only for claims with an explicit index: claims assigned by annotation all get the whole buffer's
  id with the size of one share (`StagedAsAssignedIff`, `AnnotatedClaimsShare`).

## Model

| member | source | states |
|---|---|---|
| Arithmetic.RoundUpBounds | driver/main.py:99-100 | the mapped length is the least multiple of the granularity covering the size, equal to it exactly for multiples; `import_cuda_memory` rounds the same way |
| Text.ParseShow | driver/main.py:210-213 | `int(str(i)) == i` for every integer, so printed numbers are injective |
| Keys.RenderInjective | driver/main.py:471-473 | the four key shapes are pairwise distinct and uniquely decodable for underscore-free bases |
| Keys.ReleasePrefix | driver/main.py:618 | the prefix `<id>_gpu` selects exactly the relocated copies of that id among all keys (shard 1 never touches shard 10) |
| Keys.RelocationKeyUnique | driver/main.py:366 | a relocation key is no staged id and determines buffer and GPU |
| Keys.SplitRecoversBase | driver/main.py:710 | `split("__shard_")[0]` gives the base of every staged id |
| Keys.RenderStaged | consumer/wpi_client/client.py:297-308 | the client's effective id is the staged key's text; the driver's handler computes the same id (see `Driver.Driver.NodeStageWeight`) |
| Keys.ScatterTargetIsStagedId | driver/main.py:710-711 | the id a scatter addresses is the id under which the target staged that shard, from the whole buffer or any shard of it |
| Keys.UnderscoresBreakRelease | driver/main.py:618 | for all ids: the release of one selects a staged buffer or shard of another name exactly when that name starts with `<id>_gpu` |
| Driver.Driver.constructor | driver/main.py:160-161 | both maps start empty |
| Driver.Driver.NodeStageWeight | driver/main.py:466-528 | the whole new state of a stage call, on every path: claim recorded first, count incremented, 10 GiB default, GPU choice, failed allocation, missing source |
| Driver.Driver.NodeUnstageWeight | driver/main.py:604-646 | the whole new state of an unstage call: unknown claim, untracked buffer, decrement, release |
| Driver.Driver.ReleaseAll | driver/main.py:618-643 | the buffer and its copies are freed, closed and untracked, each once; a failed free leaves its handle live |
| Driver.Driver.FreeAllocation | driver/main.py:127-133 | only live handles are freed; a failure keeps the handle |
| Driver.Driver.Leave | driver/main.py:103-123 | an attempt that raises after `cuMemCreate` leaves a live handle, and after the export an open descriptor, with no entry |
| Driver.Driver.PassFd | driver/main.py:355-424 | reply and new state of an FD request: own descriptor, cached copy, new copy, failed allocation or copy |
| Staging.StagedAnew | driver/main.py:466-528 | a staged buffer that was not tracked has the requested size or 10 GiB, one reference, the memory handed out, and is on GPU i % c for shard i on c GPUs and on GPU 0 otherwise; a worker needs a copy exactly on any other GPU; served, and the call successful, exactly when the source is found |
| Staging.StagedAgain | driver/main.py:483-486 | staging a tracked buffer adds the claim and one reference and nothing else |
| Staging.StagedInVain | driver/main.py:480-513 | without memory the claim is recorded all the same and the call fails; a half-way attempt leaves its memory on the GPU of the shard |
| Staging.UnstagedExactly | driver/main.py:604-646 | unstaging forgets the claim and one reference; the last one takes the buffer and its own copies from the table, closes their descriptors and frees their memory as far as CUDA does; everything else is as before |
| Staging.ShardsSpread | driver/main.py:501-506 | over every run on a node with c GPUs each tracked shard i is on GPU i % c and each whole buffer on GPU 0 |
| Staging.ShardsShareGpuIff | driver/main.py:501-506 | so two shards share a GPU exactly when their indices agree modulo c, and a worker maps a shard itself exactly on that GPU |
| Staging.UnservedIff | driver/main.py:530-592 | over every run nobody serves a buffer exactly when no step has both got memory for it and found its source |
| Staging.OkWithoutServer | driver/main.py:483-486 | the failing input: the first staging misses its source and fails, the second one succeeds, and nobody serves the buffer |
| DriverInvariants.SoundStep | driver/main.py:465-652 | for any ids every step keeps: each entry has its own live allocation of the rounded size on its GPU and its own open descriptor |
| DriverInvariants.TreeStep | driver/main.py:355-413 | every step keeps the table a set of counted staged buffers and of uncounted copies with a live parent, equal size and another GPU |
| DriverInvariants.RelatedExactly | driver/main.py:618-619 | a release takes exactly the buffer and its own copies |
| DriverAccounts.RunKeepsInvariants | driver/main.py:465-652 | both invariants hold after every run |
| DriverAccounts.SurplusStep | driver/main.py:479-485 | how each step moves the references that no claim accounts for |
| DriverAccounts.Ledger | driver/main.py:479-528 | over every run, count minus claims is the sum of the steps' drifts |
| DriverAccounts.ClaimedBuffersAreLive | driver/main.py:479-528 | while allocations succeed, even with re-staging, each count covers its claims and each claimed buffer is tracked |
| DriverAccounts.NoClaimsNoBuffers | driver/main.py:604-646 | without re-staging, no claims means no entries |
| DriverAccounts.BalancedRun | driver/main.py:479-646 | without failed allocations and re-staging the surplus never moves |
| DriverAccounts.SameClaimsSameCounts | driver/dra-plugin/main.go:243-276 | a run that ends with its initial claims leaves every count as it was |
| DriverAccounts.CountsEqualClaims | driver/main.py:516-528 | then counts equal claims and a buffer is tracked exactly while some claim maps to it |
| DriverAccounts.FreedWhileClaimed | driver/main.py:612-643 | exactly when an unstage frees a buffer another claim maps to |
| DriverAccounts.FailedAllocationFreesClaimedBuffer | driver/main.py:480-513 | the failing family: a failed, then a successful allocation of one id |
| DriverAccounts.RestagedClaimLeaksBuffer | driver/main.py:480-485 | staged twice for one claim, unstaged once: the buffer stays without a claim; `LeftWithoutClaim` gives the exact condition |
| DriverAccounts.LeftWithoutClaim | driver/main.py:609-643 | exactly when an unstage leaves a buffer that no claim maps to: it takes the last claim of a buffer with a surplus |
| DriverAccounts.OutlivesClaimsIff | driver/main.py:479-528 | over every run from the start, a buffer is tracked exactly when its claims and the run's drift add up to more than none: leaks, buffers freed while claimed and claims without a buffer at once |
| DriverAccounts.CountsClaimsAndRestagings | driver/main.py:480-485 | while allocations succeed, a count is the claims plus the re-stagings; so a buffer outlives its claims exactly when one was staged again |
| DriverAccounts.EngineLeavesReferences | consumer/wpi_verl_plugin/engine.py:113 | W workers of a host that stage and unstage under the engine's one claim leave W - 1 references |
| DriverAccounts.ConservationStep | driver/main.py:615-643 | "no live handle or open descriptor is untracked" survives a step exactly when all its frees succeed and no staging or relocation raises after the memory was created |
| DriverAccounts.Conservation | driver/main.py:376-412 | over every run, live handles and descriptors are in the end exactly those of the table if and only if no step has lost anything |
| DriverAccounts.LeakStays | driver/main.py:615-643 | a handle or descriptor that is lost stays lost, whatever is called |
| DriverAccounts.ReleaseConservesIff | driver/main.py:127-133 | with the requested length freed, a release conserves exactly for sizes that are multiples of the granularity |
| Relocation.FdHandedOutIff | driver/main.py:355-424 | a request gets a descriptor exactly when the buffer is tracked and is on that GPU, has a copy there or gets one now; it is that of the one entry serving the buffer there, the same again for a repeated request; a request without a new copy changes no entry |
| Relocation.FdOnRequestedGpu | driver/main.py:360-423 | every descriptor handed out is open, on the requested GPU and of the buffer's size |
| Relocation.FreshCopyEqualsParent | driver/main.py:384-398 | a fresh copy equals its parent on the first `2*(size//2)` bytes and is as allocated behind them; the parent is unchanged |
| Relocation.OneCopyPerGpu | driver/main.py:365-370 | the entries that serve a buffer on a GPU are exactly the one at its serving key, if tracked |
| Relocation.CopyIsSnapshot | driver/main.py:366-369 | over every run that does not release or write it, a copy keeps its content |
| Relocation.CachedCopyAfterOverwrite | driver/main.py:366-369 | after any later run a copy has the buffer's whole half-floats exactly when the buffer has those it had when the copy was made |
| Handshake.ReceiveHandshake | driver/main.py:197-226 | the receive loops and the parser compute the outcome, for any fragments: silent peer, exception, spinning on a closed peer, or message |
| HandshakeRoundTrip.RoundTrip | driver/main.py:713-716 | with the header held after the first loop, the message is received as sent, newline bytes in the NCCL id and all later fragmentations included |
| HandshakeRoundTrip.CutHeader | driver/main.py:208-224 | the exact outcome of a cut header: an exception up to the end of the second line, behind it a message without range whose id starts with header text |
| HandshakeRoundTrip.CutAnywhere | driver/main.py:198-202 | every cut between the first newline and the receive size happens for some fragmentation |
| HandshakeRoundTrip.CutAtReceiveSize | driver/main.py:198-202 | a header longer than 1024 bytes is cut there, however much has arrived |
| HandshakeRoundTrip.RoundTripExactly | driver/main.py:737-742 | for all messages the round trip holds if and only if the buffer id has no newline, and the header is held or imitated by the NCCL id |
| HandshakeRoundTrip.WholeMessageNeverSpins | driver/main.py:225-226 | the fill loop ends when the peer sends the whole message |
| Propagation.Fabric.NodePropagate | driver/main.py:667-818 | result, memory and signals of a call: untracked source, refusal, ranks and world size, one rank per GPU, collectives, deposits leg by leg, PRE_UPDATE and READY; where NCCL is undefined the contents are open and everything else stays |
| Propagation.Fabric.HandleTarget | driver/main.py:193-245 | a target answers OK exactly for a parsed message about a tracked buffer |
| Requests.ScatterExactly | driver/main.py:697-822 | a SCATTER request, in terms of its assignments: refused without a change exactly when a buffer is not tracked or a GPU is named twice; else, with the ranges before the first empty one inside both buffers, target i has under the id of its shard the source's bytes of its range at the same offset, every other byte stays, and PRE_UPDATE and READY go to these consumers |
| Requests.ScatterDeliversIff | driver/main.py:697-822 | it delivers exactly when all buffers are tracked on GPUs of their own and all ranges are positive and inside both buffers |
| Requests.BroadcastExactly | driver/main.py:726-822 | a request without assignments or in another mode, in terms of its targets: refused, delivered with the source's half-floats everywhere, or undefined for unequal sizes |
| Requests.StagedIdHasBase | driver/main.py:710-711 | the base that the ids of a scatter are made of is the name of the staged buffer |
| Requests.TilesConcatenate | driver/main.py:762-776 | even ranges that tile the source arrive as pieces that concatenate to it |
| PropagationProofs.PlanIsProper | driver/main.py:697-741 | ranges only in scatter mode, "0,0" otherwise, ids without a newline |
| PropagationProofs.JoinersExpected | driver/main.py:718-720 | those who join are the targets before the first that does not track its buffer, with the expected ranks; NCCL starts exactly when all do |
| PropagationProofs.OneCommunicator | driver/main.py:699-704 | one world size, one id, and with rank 0 each rank exactly once; accepted exactly when no GPU gets two ranks |
| PropagationProofs.CollectivesMeet | driver/main.py:260-271 | sends and broadcasts meet operations of equal element count up to the first empty range, respectively unequal size |
| PropagationProofs.DepositsAt | driver/main.py:260-266 | after all deposits each byte is the source's where a range covers it, and unchanged elsewhere |
| PropagationTheorems.DeliversExactly | driver/main.py:757-784 | a call whose handshakes arrive well delivers exactly when buffers are tracked, GPUs distinct, collectives compatible and ranges inside both buffers; it raises exactly when a buffer is untracked or a GPU would get two ranks, and then nothing changes; a scatter that hangs has delivered the legs before, and only those |
| Fragmentation.DeliversOnAnyWire | driver/main.py:198-226 | for handshakes in any fragments: the call delivers exactly when it was worth sending and every header is held or replaced by an id that repeats it; a garbled header changes nothing |
| Fragmentation.GarbledCall | driver/main.py:208-226 | a header cut where the handler raises, or an id made of header text, ends the call by an exception or a hang, and nothing changes |
| PropagationTheorems.SignalsSent | driver/main.py:683-816 | the signals of a call, in order: PRE_UPDATE at the source and at the targets before the first refusal, READY where the transfer completed |
| PropagationTheorems.ReadyIffCompleted | driver/main.py:285-294 | a target's consumers are told READY exactly when its leg completed |
| PropagationTheorems.ReadyMeansDelivered | driver/main.py:285-294 | a target whose consumers are told READY holds its range of the source |
| PropagationTheorems.StuckScatterOverwrites | driver/main.py:766-776 | a scatter that hangs at an empty range has overwritten the targets before it |
| PropagationTheorems.LegsDelivered | driver/main.py:766-776 | target i of a completed leg holds the source's bytes on `[offset, offset + 2*(length//2))`, or on all whole elements |
| Notify.NotifyList.Accept | driver/main.py:451-459 | a new consumer is listed last, with an empty log; while the buffer is not tracked its connection is closed |
| Notify.NotifyList.SendToAll | driver/main.py:179-191 | one pass sends to all and leaves exactly the consumers whose send succeeded, in order |
| Notify.InvRun | driver/main.py:242-299 | the protocol invariant, about contents, over every run of joins, passes, copies, failures and local writes at any time |
| Notify.ReadyFollowsCopy | driver/main.py:285-294 | each READY comes one NCCL operation after the PRE_UPDATE before it |
| Notify.ReadyAnnouncesDeposit | driver/main.py:281-291 | each READY is sent while the buffer holds what its transfer deposited, unless a local process wrote in between |
| Notify.ReadyStaysTrue | driver/main.py:679-683 | after READY no transfer has copied, and the content is the announced one until a local process writes: NCCL never overwrites without PRE_UPDATE |
| Notify.WriteAfterReady | consumer/wpi_verl_plugin/engine.py:350-371 | a local write after READY sends no signal and makes the announced content wrong exactly when it writes something else |
| Notify.LogShape | driver/main.py:800-816 | the log of a consumer that joined outside a transfer is (PRE_UPDATE+ READY)* PRE_UPDATE* |
| Notify.WaitBlocksIff | consumer/wpi_client/client.py:644-651 | the wait blocks exactly while everything sent is read and the connection is open, and reports READY exactly for an unread READY |
| Notify.WaitReturnsBeforeCopy | consumer/wpi_client/client.py:646-651 | a waiting consumer returns at the PRE_UPDATE, before the copy |
| Notify.WaitCopiedIff | consumer/wpi_client/client.py:646-651 | in any phase and with anything left unread: an NCCL operation has surely finished since if and only if the chunk holds a READY sent since, other than the first signal after a copy |
| Notify.UnreadReady | consumer/wpi_client/client.py:646-651 | a READY that was unread already makes the wait return with READY and tells nothing |
| Notify.StaleReady | consumer/wpi_client/client.py:646-651 | a consumer that returned at PRE_UPDATE gets that transfer's READY in its next wait, before any new transfer and without any further copy |
| Packing.SendWeights | consumer/wpi_verl_plugin/engine.py:351-371 | buffer, table and total after packing; success exactly when the list fits, else exactly the earlier tensors, never a byte past the bucket |
| Packing.ReceiveWeights | consumer/wpi_verl_plugin/engine.py:430-437 | the yielded tensors up to the first refused view, where it raises |
| PackingProofs.NumelIsProduct | consumer/wpi_verl_plugin/engine.py:434 | `shape.numel()` is the product of the dimensions |
| PackingProofs.OffsetsAreSums | consumer/wpi_verl_plugin/engine.py:363-371 | the table records for each name the sum of the sizes before its last tensor |
| PackingProofs.OffsetsTile | consumer/wpi_verl_plugin/engine.py:367-371 | each position of the payload lies in exactly one tensor's range |
| PackingProofs.DescendingIsAligned | consumer/wpi_verl_plugin/engine.py:430-436 | offsets are aligned when each later itemsize divides each earlier one |
| PackingProofs.LastTensorWins | consumer/wpi_verl_plugin/engine.py:363-368 | the dictionary holds the last tensor sent under each name |
| PackingProofs.NamesInFirstOrder | consumer/wpi_verl_plugin/engine.py:430 | and its names in the order of first occurrence |
| PackingProofs.ReadBackExactly | consumer/wpi_verl_plugin/engine.py:430-437 | from a buffer that shows the dictionary, reading yields it up to the first misaligned name, so all of it exactly when there is none |
| PackingProofs.ReadsIff | consumer/wpi_verl_plugin/engine.py:430-437 | any buffer yields exactly the dictionary if and only if all last offsets are aligned and the buffer shows every last tensor there |
| Topology.RanksUnique | consumer/wpi_verl_plugin/engine.py:279-290 | rank 0 and each rank 1..N once over all workers, -1 for the other trainers; all are told the world size N + 1 |
| Topology.HostsCovered | consumer/wpi_verl_plugin/engine.py:270-290 | every trainer is told as targets exactly the rollout hosts other than the trainer's, each once; rollout workers are told none |
| EndToEnd.StagingGivesBuffer | consumer/wpi_verl_plugin/engine.py:215-219 | staging a new buffer gives the node that buffer of the bucket's size |
| EndToEnd.BroadcastContent | driver/main.py:674-784 | after a broadcast the targets' buffers hold the source's whole half-floats, and every other byte is as before |
| EndToEnd.HostTwiceRaises | consumer/wpi_verl_plugin/engine.py:270-277 | a broadcast to the source's own host, or twice to one host, is refused and changes nothing |
| EndToEnd.EveryHostHolds | driver/main.py:674-784 | after packing and propagating, the staged buffers of the trainer and of all targets start with the list, for a trainer on the staged GPU |
| EndToEnd.OddBucketLosesLastByte | driver/main.py:677 | the last byte of an odd bucket stays as it was on the targets; `SeenStarts` says when the list arrives all the same |
| EndToEnd.SeenStarts | driver/main.py:677 | a worker that the packing reaches sees the list exactly when it fits the whole half-floats, or the last byte was there before |
| EndToEnd.Delivery | consumer/wpi_verl_plugin/engine.py:350-437 | packing succeeds, the propagation delivers, every rollout worker is told PRE_UPDATE and READY with the old and the new content, and through its own GPU's memory it reads exactly the dictionary if and only if all last offsets are aligned and the packing reaches that memory, or it shows the dictionary already |
| EndToEnd.OnStagedGpuIff | consumer/wpi_verl_plugin/engine.py:206-224 | with the trainer on the staged GPU: a worker reads the dictionary if and only if the offsets are aligned and it is on the staged GPU or its older copy shows the dictionary |
| EndToEnd.UnfedSees | consumer/wpi_verl_plugin/engine.py:223-225 | what a worker sees that the packing does not reach is what was there before |
| EndToEnd.ReadAfterWait | consumer/wpi_verl_plugin/engine.py:418-437 | on a target, after READY the announced content gives the dictionary under the same condition; after PRE_UPDATE alone it is the old content |
| EndToEnd.CopyMadeAfterwards | driver/main.py:371-413 | a worker whose copy is made after the transfer reads what the staged buffer gives |
| EndToEnd.OtherGpuReadsOld | consumer/wpi_verl_plugin/engine.py:206-224 | a concrete node: an aligned list is delivered, the worker on GPU 0 reads it and the worker on GPU 1 does not |
| EndToEnd.OneRankPerHost | consumer/wpi_verl_plugin/engine.py:275-277 | the communicator has one rank per distinct rollout host and never the trainer's host twice |
| TrainingLoop.CallKeepsShape | driver/main.py:661-822 | however a call goes, it changes contents of memory and nothing else |
| TrainingLoop.CallKeepsGood | driver/main.py:661-822 | so the invariants of all nodes survive every call |
| TrainingLoop.StillPrepared | consumer/wpi_verl_plugin/engine.py:442-451 | after a sync the cluster is prepared for the next |
| TrainingLoop.WatchesAgain | driver/main.py:285-299 | after a sync a host's hub is between transfers again, with the new content |
| TrainingLoop.OwnCopyForever | driver/main.py:366-369 | through any number of syncs a worker's own copy keeps the content it had |
| TrainingLoop.LoopServes | consumer/wpi_verl_plugin/engine.py:81-87 | after any number of syncs a worker on the staged GPU reads exactly the last list if and only if its offsets are aligned, and a worker on a copy reads what the copy held at the start |
| Shards.FromFiles | operator/internal/controller/weightbuffer_controller.go:134-145 | slot i holds the last file entry with index i; error at the first index out of range |
| Shards.FilledIffDistinct | operator/internal/controller/weightbuffer_controller.go:129-145 | every slot is filled, with its own index, exactly when the indices are distinct |
| Shards.FromPattern | operator/internal/controller/weightbuffer_controller.go:149-172 | one shard per number, its generated file, the floor share of a readable capacity |
| Shards.FileNamesDistinct | operator/internal/controller/weightbuffer_controller.go:165 | different shards get different file names |
| Shards.EvenSplit | operator/internal/controller/weightbuffer_controller.go:185-200 | the even table, remainder bytes to the first shards, in Go's truncating arithmetic |
| Shards.EvenOffsetClosed | operator/internal/controller/weightbuffer_controller.go:190-195 | prefix offsets are `i*q + min(i, r)` |
| Shards.EvenSplitConserves | operator/internal/controller/weightbuffer_controller.go:185-195 | sizes are non-increasing, differ by at most 1, and sum to the capacity exactly when it is non-negative or divisible |
| Shards.DiscoverShards | operator/internal/controller/weightbuffer_controller.go:124-208 | the three cases and their errors |
| Shards.DiscoversExactly | operator/internal/controller/weightbuffer_controller.go:124-208 | discovery succeeds exactly for one file entry per shard in range, else a pattern, else a readable capacity; the table has the last entry per index, the file numbers i + 1 of n with the floor share, or even ranges that sum to the capacity; a failure names what is wrong |
| Shards.PatternSumsIff | operator/internal/controller/weightbuffer_controller.go:154-170 | the sizes of a pattern's table sum to the capacity exactly when the shard count divides it |
| BufferController.WeightBuffer.WithCondition | operator/internal/controller/weightbuffer_controller.go:211-228 | the loop overwrites the first condition of the type or appends |
| Conditions.SetConditionKeeps | operator/internal/controller/weightbuffer_controller.go:211-228 | types stay unique, other conditions stay |
| BufferController.WeightBuffer.Reconcile | operator/internal/controller/weightbuffer_controller.go:60-117 | the stored status after a reconcile, with a working or failing update |
| BufferController.StoresTable | operator/internal/controller/weightbuffer_controller.go:60-93 | after a stored reconcile the condition is true exactly when the spec can be sharded, and then total and table are those the spec promises; else they are as before, and the condition says why |
| BufferController.LeavesTheRest | operator/internal/controller/weightbuffer_controller.go:96-115 | other conditions stay, Ready is added once and true, without sharding the shards stay, and a failed update stores nothing |
| BufferController.TableOfLast | operator/internal/controller/weightbuffer_controller.go:83-115 | over all runs total and table are those of the last stored reconcile whose spec could be sharded |
| BufferController.InvRun | operator/internal/controller/weightbuffer_controller.go:83-93 | over all runs, with changing specs and lost updates, the total equals the table's length and types are unique |
| BufferController.SecondReconcile | operator/internal/controller/weightbuffer_controller.go:60-115 | a second reconcile changes nothing but the transition time |
| ClaimController.ResolveShardIndex | operator/internal/controller/weightclaim_controller.go:184-244 | explicit index, first readable rank annotation, range check, table entry or fallback |
| ClaimController.ResolveMeans | operator/internal/controller/weightclaim_controller.go:184-244 | for all claims and statuses: resolved exactly for a wanted index in range (its own, or of the first of three annotations that can be read), with the entry of the table; each refusal says what is missing |
| ClaimController.ResolvesFromTable | operator/internal/controller/weightclaim_controller.go:224-237 | against every reachable buffer status a claim that wants shard i is resolved exactly when i is below the count of the last spec sharded and stored, with the entry that spec promises |
| ClaimController.WeightClaim.Reconcile | operator/internal/controller/weightclaim_controller.go:65-169 | stored status, ResourceClaim and error of a reconcile for all answers of the API server |
| ClaimController.RunKeeps | operator/internal/controller/weightclaim_controller.go:109-162 | over all runs condition types stay unique, and the ResourceClaims created are at most one: exactly one if none was there and one is in the end |
| ClaimController.ValidatesIff | operator/internal/controller/weightclaim_controller.go:65-169 | a reconcile goes without an error exactly when the calls it makes work; then Validated is true exactly when the buffer is there, and unsharded or with a shard in range for the claim |
| ClaimController.StoresExactly | operator/internal/controller/weightclaim_controller.go:88-162 | the stored condition with reason and message, the index of the claim's shard, and the ResourceClaim: when each is stored and when it stays |
| ClaimController.CreatedOnlyWhenValid | operator/internal/controller/weightclaim_controller.go:129-162 | a ResourceClaim appears only in a reconcile without an error that leaves an acceptable claim Validated |
| ClaimController.SecondReconcile | operator/internal/controller/weightclaim_controller.go:65-167 | a second claim reconcile with the same answers changes nothing |
| ClaimController.AssignmentStoredIff | operator/internal/controller/weightclaim_controller.go:88-125 | the resolved index is stored exactly when the status flips or already held it |
| ClaimController.AssignedAtLastFlip | operator/internal/controller/weightclaim_controller.go:88-125 | over all runs the stored index is the one of the last reconcile that resolved a shard and flipped the condition |
| ClaimController.StaleAssignment | operator/internal/controller/weightclaim_controller.go:109-125 | a re-pointed claim that stays valid keeps its old index |
| Plugin.BuildRequest | driver/dra-plugin/main.go:123-176 | the stage request of a claim: int32 and uint64 conversions, floor share, VRAM limit |
| Plugin.RequestMeans | driver/dra-plugin/main.go:105-195 | each field of the request from what the plugin finds: name of the ResourceClaim or claim, buffer, int32 of the explicit index or -1, int32 of the shard count, rounded-down share of the uint64 capacity or 0 |
| Plugin.TooLargeIff | driver/dra-plugin/main.go:171-176 | a claim is turned away exactly when the node's memory is known and its capacity has (memory + 1) * n bytes for n shards, or more bytes than the memory without shards |
| Plugin.NodePrepareResources | driver/dra-plugin/main.go:87-201 | claims are staged in order up to the first that is too large or fails; what was staged stays |
| Plugin.NodeUnprepareResources | driver/dra-plugin/main.go:243-280 | every claim is unstaged in order |
| Plugin.UnprepareUndoesPrepare | driver/dra-plugin/main.go:243-280 | unpreparing the claims that were prepared, with every allocation successful and none known or twice, leaves claims and all counts as they were |
| Plugin.PluginFallsShort | driver/dra-plugin/main.go:161-164 | per shard the plugin's share is 0 or 1 below the operator's, in total by the remainder, and equal exactly when divisible |
| Plugin.StagedWithinShareIff | driver/main.py:494-497 | staged sizes stay within the operator's shares exactly for at least one byte per shard; below, the default of 10 GiB |
| Plugin.ScatterFitsShardBufferIff | driver/main.py:260-266 | for all shares and granularities, when the even range of shard i lies inside a buffer staged by the plugin: shard 0, or ends within one granule, or a share of 0 |
| ShardScatter.EvenSplitScatters | operator/internal/controller/weightbuffer_controller.go:189-200 | a scatter of the operator's even split arrives as pieces that concatenate to the source |
| ShardScatter.OnlyShardZeroFits | driver/main.py:262-266 | a deliverable scatter into buffers staged by the plugin sends shard 0 only, or shards within one granule, or shares of 0 |
| ShardAssignment.StagedAsAssignedIff | driver/dra-plugin/main.go:129-135 | the plugin stages the index that the operator resolved if and only if the claim names it explicitly |
| ShardAssignment.AnnotatedClaimsShare | driver/dra-plugin/main.go:123-196 | claims assigned by annotation are all staged under the whole buffer's id with the size of one share |

## Left out

- CUDA, CuPy, NCCL and torch internals: an allocation fails at once, half-way, or gives fresh memory; NCCL needs one rank per GPU and matched calls; torch needs divisible offsets.
- NCCL broadcasts of unequal counts and ranges outside a buffer are undefined: the contents and READY signals they leave are a parameter.
- Interleaving inside one handler: the code has no locks, the model runs one handler at a time (consumers may join, and local processes write, between the phases of a transfer).
- Notify.Next: one transfer per buffer at a time; broadcasts that overlap on one buffer are not covered.
- Notify.WaitForReady: a received chunk is a number of whole signals; one that ends inside a signal is not covered.
- Text.ParseInt: the extra forms of Python's `int()` (spaces, plus sign, underscores) that no sender here produces.
- Loading safetensors at stage time: the content after staging is a parameter, only the missing source's abort is modelled.
- Sockets, threads, gRPC, ZMQ, Ray, the Kubernetes API, timeouts, retries, file permissions, bandwidth and logging.
- `NodeRegisterWeight`, `NodeTranslateAndMap`, the identity service, the DRA reconciler and the ResourceSlice publisher: no state worth a proof.
- `resource.ParseQuantity`, `fmt.Sscanf` and `filepath.Join`: their results are inputs, a joined path is a pair; a shard index read as a float is taken as its integer.
- Sorting the even split by index: its table is already in index order.
- Parsing `GPU=<n>` from the FD socket: the requested GPU is an input.
