# SGFX planning and submission, verified

A Dafny model of the planning, caching and submission core of SGFX: the VirGL
backend (`crates/sgfx-backend-scarlet-virgl`), the support library it shares
with other backends (`crates/sgfx-core/src/backend/support`) and two pieces of
the WGPU backend (`crates/sgfx-backend-wgpu`). `dafny verify dfyconfig.toml`
checks all of it.

The modules follow the program's parts:

- `Ranges`, `Deltas`, `BufferPlan`, `Publication`, `BufferStream`: sparse
  pending writes over immutable accepted buffers. A splitting index, a
  chronological log and a cumulative upload delta are kept in agreement with one
  growing byte array; storage is reserved before anything is sent and the log is
  replayed into it after acceptance.
- `Uploads`, `Submissions`, `Repair`, `StaleRuns`: what a preparation leaves in
  the physical buffer, and a state machine that takes every attempt step by step
  (snapshot, preparation of a slot packet by packet, acceptance or failure),
  tracked or synchronous, with compute publications and releases between them.
  `Submissions` proves what holds of accepted contents, `Repair` what holds of
  the device, `StaleRuns` two runs in which the device keeps stale bytes.
  `DeltaLaws` says, word for word, what deltas mark and uploads send.
- `IndexBounds`, `IndexCache`, `PendingBuffers`, `VertexFetch`: memoised index
  extrema, canonical validation and fetch bounds.
- `DrawParts`, `DrawLaw`, `DrawCache`: a draw rebuilt from the current state,
  what it then holds in terms of the bound groups, and the one-entry cache.
- `SplitPass`, `Lowering`: cutting passes into transport-sized chunks, and
  lowering a command stream, against an interpreter that takes it command by
  command. A trace lists what the device is asked to do, so equality of traces
  is equality on every device.
- `Dispatch`, `Admission`, `NativeLog`, `Arenas`, `DispatchRuns`,
  `DispatchLaws`, `Wake`, `DispatchWake`: producers, worker, waiters and the coalesced wake byte as
  atomic steps; a run is any interleaving. `DispatchWake` runs the dispatcher
  and its byte together. `Packets` batches a stream before it is admitted and
  reports the outcome of the call.
- `Compute`, `ComputeControl`, `ComputeMirror`, `ComputeCost`, `ComputePlan`,
  `ComputeLaunch`, `ComputeSubmit`, `ComputePacket`: compute streams with the
  kernel uninterpreted, exactly when they can be planned, what each dispatch
  carries, their publication and their packet size.
- `Snorm`, `VertexInput`: the packed vertex-input rewriting pass.
- `Textures`: channel conversion, packing and row compaction in place.

`Common` holds the shared value types; buffers are sequences of bytes that read
as zero past their end. Words of 64 bits are modelled as natural numbers with
the overflow checks written out (`MAX_WORD`).

Native calls, the device, the shader compiler and descriptor lookups are
parameters: an uninterpreted function, or the outcome of a step. Theorems hold
for every such function and every outcome. Compiled shaders are assumed to have
the register ranges the compiler guarantees (`WellFormedShader`), and a table
the shaders of well-formed pipelines (`WellFormedTable`, `WellFormed`).

## Where the code and its comments differ

- `ir_execute.rs:2297-2301` says that after a failed synchronous attempt the
  physical revision is newer than the retained base, so the next preparation
  detects the mismatch and repairs in full. A failed attempt and its retry plan
  the same revision number, and `virgl.rs:2115-2117` returns early when the
  recorded revision equals the planned one. `StaleRuns` has both consequences as
  runs: a retry with other contents is accepted without an upload
  (`StaleRuns.RetriedRun`), and one stream later the recorded revision equals the
  base of the next delta, so only that delta is patched onto bytes that never
  held the base (`StaleRuns.ContinuedRun`). `Repair.FaithfulExactly` is the exact
  condition, over every run: each recorded revision stands for its accepted
  contents in all states if and only if no event gives a revision number at which
  contents were left behind to contents that differ (`Repair.Reuses`).
  `Repair.LeftByFailure` says what is left: contents a synchronous attempt
  prepared and then failed on, with nothing of that slot accepted since. So a
  caller keeps the device right by retrying with the same contents, or by drawing
  from the slot unwritten first, which uploads it in full. Tracked attempts
  restore the recorded revisions and never conflict
  (`Repair.TrackedNeverConflicts`).
- The wake byte is described as sufficient. It is while every write lands
  (`Wake.NoLostWake`, `DispatchWake.SleepingWorkerOwed`). `Wake.LosesWake` is the
  exact step that defeats it: the loss of the only byte owed to a worker past
  draining, or a notifier trusting a set flag with nothing behind it
  (`Wake.RunAnnouncedExactly`); such a flag comes only from a lost write
  (`Wake.RunBackedExactly`). The worker's poll timeout then bounds the delay.
- `completion.rs:254` moves the packets out by leaving `Packets::new(0)` in their
  place, which the assertion at `support/packets.rs:30` rejects: `flush` as
  written stops on every tracked submission (`Packets.SubmitMode.Flush`).
  `Packets.SubmitMode.FlushLeaving` is the same method with the limit of the
  packets left behind as a parameter; with any positive limit it does what the
  rest of the code relies on.

## Model

| member | source | states |
|---|---|---|
| `Ranges.Insert` | `crates/sgfx-core/src/backend/support/ranges.rs:54-106` | inserting a write leaves the index sorted, disjoint and nonempty, and every byte is owned by the new write inside its range and by its previous owner outside |
| `Ranges.InsertedOwner` | `crates/sgfx-core/src/backend/support/ranges.rs:54-106` | the same ownership law for the insertion itself, empty ranges included, for every index and every byte |
| `Ranges.QueryRange` | `crates/sgfx-core/src/backend/support/ranges.rs:24-50` | the two binary searches return exactly the segments that meet the range |
| `Deltas.IncludeExact` | `crates/sgfx-core/src/backend/support/buffers.rs:209-229` | adding a range to dirty intervals gives up exactly when it cannot be aligned or 128 intervals are held and none touches it; otherwise it marks exactly the aligned range in addition and keeps them separated |
| `Deltas.IncludeAllExact` | `crates/sgfx-core/src/backend/support/buffers.rs:251-275` | merging two interval lists marks exactly the union, or overflows |
| `Deltas.IncludeRangeKeeps` | `crates/sgfx-core/src/backend/support/buffers.rs:241-250` | extending a delta forgets nothing it declared changed and stays well formed |
| `Deltas.MergeKeeps` | `crates/sgfx-core/src/backend/support/buffers.rs:251-275` | merging with an older delta forgets nothing either declared changed |
| `Deltas.MergeCovers` | `crates/sgfx-core/src/backend/support/buffers.rs:251-275` | deltas compose: if one leads from a to b and the next from b to c, the merged delta leads from a to c |
| `DeltaLaws.MergeMarks` | `crates/sgfx-core/src/backend/support/buffers.rs:251-275` | a merged delta starts at the older base, spans both ranges, and marks the words of both deltas and no other; it falls back to everything only with one of them or when some step finds no room |
| `DeltaLaws.WriteMarks` | `crates/sgfx-backend-scarlet-virgl/src/ir_execute.rs:961-1021` | a write adds to the pending delta exactly the four-byte words that really change |
| `DeltaLaws.SendsExactly` | `crates/sgfx-backend-scarlet-virgl/src/virgl.rs:5833-5890` | an upload sends exactly the marked words inside the buffer when the device copy holds the base of the delta, and the whole buffer otherwise |
| `DeltaLaws.BaseKept` | `crates/sgfx-backend-scarlet-virgl/src/ir_execute.rs:596-604` | acceptance without preparation keeps the base of a retained delta; preparation, compute output and release drop the delta, and no other step touches it |
| `DeltaLaws.PrepareFailsExactly` | `crates/sgfx-backend-scarlet-virgl/src/virgl.rs:2092-2122` | in every reachable state a preparation fails its attempt exactly for an empty buffer, one not in whole words, or one larger than its storage or than a packet can address |
| `BufferPlan.ChangedBufferBytes` | `crates/sgfx-core/src/backend/support/buffer_diff.rs:73-112` | against accepted contents the diff is absent exactly when nothing changes and otherwise the tightest changed range, extended over the growth gap |
| `BufferPlan.TightChangeUnique` | `crates/sgfx-backend-scarlet-virgl/src/ir_execute.rs:893-959` | the tightest change is unique, and absent exactly when the write changes neither contents nor length |
| `BufferPlan.BufferOnlyPlan.ReadRange` | `crates/sgfx-backend-scarlet-virgl/src/ir_execute.rs:803-823` | a pending read returns exactly the zero-extended slice of the naive byte array |
| `BufferPlan.BufferOnlyPlan.ChangedRange` | `crates/sgfx-backend-scarlet-virgl/src/ir_execute.rs:893-959` | the 256-byte forward and backward scans over pending contents return that same tight change; failure exactly on overflow or an unknown slot |
| `BufferPlan.BufferOnlyPlan.Write` | `crates/sgfx-backend-scarlet-virgl/src/ir_execute.rs:961-1021` | after a write the slot's pending contents are the naive zero-extending overwrite, every other slot and entry is unchanged, and a failure changes nothing |
| `BufferPlan.BufferOnlyPlan.Copy` | `crates/sgfx-backend-scarlet-virgl/src/ir_execute.rs:872-891` | a copy, self-overlapping or growing, reads all of its source first and then is that write |
| `BufferPlan.BufferOnlyPlan.Source` | `crates/sgfx-backend-scarlet-virgl/src/ir_execute.rs:834-871` | the uploader's overlays show, byte by byte and in length, the pending contents |
| `BufferPlan.OverlaysResolve` | `crates/sgfx-backend-scarlet-virgl/src/ir_execute.rs:834-871` | overlays cut from the index read every byte as the index resolves it |
| `BufferPlan.WrittenBuilt` | `crates/sgfx-backend-scarlet-virgl/src/ir_execute.rs:961-1021` | every sequence of plan writes keeps the index, the log, the lengths, the revisions and the deltas in agreement |
| `BufferPlan.WrittenView` | `crates/sgfx-backend-scarlet-virgl/src/ir_execute.rs:961-1021` | what the splitting index resolves after a trimmed write is the naive overwrite of what it resolved before |
| `Publication.ReplayIsView` | `crates/sgfx-backend-scarlet-virgl/src/ir_execute.rs:1070-1104` | replaying the logged writes in command order over the grown shadow gives exactly the bytes the index resolves |
| `Publication.Reserve` | `crates/sgfx-backend-scarlet-virgl/src/ir_execute.rs:1023-1044` | reservation fails, with out of memory, exactly when an allocation it needs is refused; no accepted bytes, revision or delta changes either way, capacity never shrinks, and success leaves room for every update |
| `Publication.PreparedPlan.Publish` | `crates/sgfx-backend-scarlet-virgl/src/ir_execute.rs:1070-1104` | acceptance publishes exactly the pending contents at the next revision with the merged delta, inside the reserved storage; an error is passed on and leaves every shadow untouched |
| `BufferStream.FromCommands` | `crates/sgfx-backend-scarlet-virgl/src/ir_execute.rs:708-782` | the buffer-only path declines exactly empty and mixed streams; otherwise the pending contents are those of a naive interpreter, every command names existing buffers of the right usage and ranges inside them, and such streams always succeed |
| `BufferStream.CopyRefusals` | `crates/sgfx-backend-scarlet-virgl/src/ir_execute.rs:736-799` | which refusal a recorded copy meets: a wrapped source range is told apart from one past the end of the source |
| `BufferStream.PublishedIsNaive` | `crates/sgfx-backend-scarlet-virgl/src/ir_execute.rs:1070-1104` | published contents of a whole stream equal the naive interpreter's |
| `Uploads.PlannedDeltaAccepted` | `crates/sgfx-backend-scarlet-virgl/src/virgl.rs:5833-5890` | a planned delta is never refused, and the chosen upload ranges hold every byte that may differ from the physical copy |
| `Uploads.PreparedHolds` | `crates/sgfx-backend-scarlet-virgl/src/virgl.rs:2092-2195` | preparation from a matching base, or from anything else by full upload, leaves the physical bytes equal to the contents |
| `Uploads.RepairExactly` | `crates/sgfx-backend-scarlet-virgl/src/virgl.rs:2092-2122` | one preparation: where the cells are as the base of the delta demands, the contents are left in every physical state exactly when the recorded revision differs from the planned one |
| `Uploads.SynchronousRepairSkipped` | `crates/sgfx-backend-scarlet-virgl/src/ir_execute.rs:2297-2301` | a concrete retry for which the promised full repair does not happen and the bytes of the failed attempt remain |
| `Uploads.StaleBaseKept` | `crates/sgfx-backend-scarlet-virgl/src/ir_execute.rs:2297-2301` | one stream later the recorded revision differs from the planned one, yet a well-formed delta is patched onto a base the cells never held |
| `Uploads.IrBuffer.Prepare` | `crates/sgfx-backend-scarlet-virgl/src/virgl.rs:2092-2195` | the payload-sized writes of one preparation change the buffer exactly as the specification of preparation says |
| `Submissions.StepSound` | `crates/sgfx-backend-scarlet-virgl/src/ir_execute.rs:2283-2294` | every step of an attempt, compute publication and release keeps deltas, tags and the recorded history sound |
| `Submissions.RunSound` | `crates/sgfx-backend-scarlet-virgl/src/ir_execute.rs:579-608` | in every state of every run each slot is sound for the history that run recorded |
| `Submissions.HistoryIsAccepted` | `crates/sgfx-backend-scarlet-virgl/src/ir_execute.rs:1070-1104` | entry r of the recorded history is what the slot held in every earlier state of the run at revision r, unless released since |
| `Submissions.HistoryReached` | `crates/sgfx-backend-scarlet-virgl/src/ir_execute.rs:1070-1104` | every entry of the recorded history was the accepted contents of some state of the run |
| `Submissions.PatchRestores` | `crates/sgfx-backend-scarlet-virgl/src/ir_execute.rs:579-608` | after any run, on a copy holding what was accepted at the base revision of the retained delta, patching only the bytes of the delta gives the accepted contents |
| `Submissions.AcceptPublishes` | `crates/sgfx-backend-scarlet-virgl/src/ir_execute.rs:2283-2294` | acceptance leaves the published shadows, with the deltas of exactly the prepared slots dropped |
| `Submissions.UnacceptedRestores` | `crates/sgfx-backend-scarlet-virgl/src/ir_execute.rs:1988-2018` | an attempt that is not accepted, wherever it stops, gives back bytes, revisions, deltas and tags; a tracked one also device bytes and recorded revisions |
| `Submissions.PendingDelta` | `crates/sgfx-backend-scarlet-virgl/src/ir_execute.rs:1060-1069` | the delta handed to the uploader leads from an accepted base revision to the pending contents |
| `Repair.StepGrounded` | `crates/sgfx-backend-scarlet-virgl/src/virgl.rs:2092-2195` | every step that does not conflict keeps the device what the records say, snapshots, staged packets and half-sent preparations included |
| `Repair.FaithfulExactly` | `crates/sgfx-backend-scarlet-virgl/src/ir_execute.rs:2225-2306` | over every run of synchronous and tracked attempts, compute publications and releases, each recorded revision stands for its accepted contents in all states if and only if no event gives a revision number left behind to other contents |
| `Repair.DiffersDecided` | `crates/sgfx-backend-scarlet-virgl/src/virgl.rs:2115-2117` | contents differ from what was left, byte by byte, exactly when the device does not hold them |
| `Repair.LeftByFailure` | `crates/sgfx-backend-scarlet-virgl/src/ir_execute.rs:2063-2095` | between attempts, contents are left behind only by a synchronous attempt that prepared them and was not accepted since |
| `Repair.TrackedNeverConflicts` | `crates/sgfx-backend-scarlet-virgl/src/ir_execute.rs:2010-2018` | runs of tracked attempts never conflict, whatever fails |
| `Repair.AcceptedBuffersUploaded` | `crates/sgfx-backend-scarlet-virgl/src/ir_execute.rs:2278-2306` | on acceptance every prepared slot has no delta and is recorded at the accepted revision, and holds the accepted bytes exactly when nothing left was reused; every other keeps its merged delta |
| `StaleRuns.RetriedRun` | `crates/sgfx-backend-scarlet-virgl/src/ir_execute.rs:2225-2306` | a run in which the retry of a failed attempt is accepted without an upload and the device keeps the bytes of the failure |
| `StaleRuns.ContinuedRun` | `crates/sgfx-backend-scarlet-virgl/src/ir_execute.rs:2225-2306` | that run one stream further: only the next delta is patched, and half of the buffer keeps the bytes of the failure |
| `StaleRuns.BothStale` | `crates/sgfx-backend-scarlet-virgl/src/ir_execute.rs:2297-2301` | both are runs from fresh resources and both end with a recorded revision whose contents the device does not hold |
| `Submissions.TagsProveRecords` | `crates/sgfx-backend-scarlet-virgl/src/ir_execute.rs:526-536` | over every run an accepted tag never exceeds the revision, and a tag equal to it means every 40-byte record was checked valid |
| `IndexBounds.RawIndexBounds` | `crates/sgfx-core/src/backend/support/indices.rs:113-131` | the scan returns the smallest and largest index, trailing bytes ignored |
| `IndexBounds.IndexEncoded` | `crates/sgfx-core/src/backend/support/indices.rs:118-122` | an index has exactly the value whose 16-bit or 32-bit little-endian encoding stands in its place |
| `IndexBounds.MaximumDecides` | `crates/sgfx-core/src/backend/support/indices.rs:132-142` | checking the two extrema plus the base vertex decides for every index, and gives the largest vertex |
| `IndexCache.IndexBoundsCache.Lookup` | `crates/sgfx-core/src/backend/support/indices.rs:159-217` | exact cache, blocked scan and block cache together return exactly a fresh scan of the current contents; a key already held changes nothing, and every looked-up key is held afterwards |
| `IndexCache.IndexBoundsCache.Invalidate` | `crates/sgfx-core/src/backend/support/indices.rs:55-68` | exactly the entries of the slot are dropped, and every remaining proof is true of the changed contents |
| `IndexCache.IndexBoundsCache.BlockedBounds` | `crates/sgfx-core/src/backend/support/indices.rs:175-217` | head, whole blocks and tail merge to the scan of the whole range |
| `IndexBounds.ScanConcat` | `crates/sgfx-core/src/backend/support/indices.rs:143-151` | scanning part by part agrees with scanning the whole when the first part holds whole indices |
| `PendingBuffers.PendingBuffers.Write` | `crates/sgfx-backend-scarlet-virgl/src/ir_execute.rs:1134-1158` | an accepted write updates the pending contents naively and discards both proofs of its slot; failures change nothing |
| `PendingBuffers.PendingBuffers.Copy` | `crates/sgfx-backend-scarlet-virgl/src/ir_execute.rs:1160-1192` | the same for a copy, whose destination was checked at recording |
| `PendingBuffers.PendingBuffers.ValidateCanonical` | `crates/sgfx-backend-scarlet-virgl/src/ir_execute.rs:1269-1286` | succeeds exactly when every 40-byte record of the pending contents is valid |
| `PendingBuffers.PendingBuffers.EnsureCanonical` | `crates/sgfx-backend-scarlet-virgl/src/ir_execute.rs:1245-1286` | skipped or made, success means every record of the current pending contents is valid |
| `PendingBuffers.PendingBuffers.CachedIndexMaximum` | `crates/sgfx-backend-scarlet-virgl/src/programmable.rs:30-97` | for every interleaving of writes, copies and lookups the maximum equals a fresh scan of the current contents plus the base vertex |
| `VertexFetch.VertexFetchRange` | `crates/sgfx-backend-scarlet-virgl/src/programmable.rs:1399-1430` | the returned end covers every attribute of every vertex up to the maximum and of every instance under the divisor, from the returned binding offset; it fails exactly when the last step or the end overflows |
| `VertexFetch.EndReached` | `crates/sgfx-backend-scarlet-virgl/src/programmable.rs:1399-1430` | the end is tight: the last step of the attribute that reaches furthest reads up to it |
| `VertexFetch.InstanceCovers` | `crates/sgfx-backend-scarlet-virgl/src/programmable.rs:1407-1430` | advancing the binding to the first instance and stepping by the divisor stays below the checked end |
| `VertexFetch.MaximumVertex` | `crates/sgfx-backend-scarlet-virgl/src/programmable.rs:1236-1257` | the largest vertex bounds every vertex walked and is walked itself; it exists exactly when neither the range nor any index plus base overflows, empty draws included |
| `VertexFetch.CheckDraw` | `crates/sgfx-backend-scarlet-virgl/src/programmable.rs:1236-1305` | a draw passes exactly when its largest vertex exists, it has instances and the last step of every slot fits its buffer, and then it cannot fetch one byte outside any of them |
| `SplitPass.ChunkFitsTransport` | `crates/sgfx-backend-scarlet-virgl/src/ir_execute.rs:3387-3397` | the overflow-checked sum accepts exactly 40v + 6144 + 256d <= 65536 |
| `SplitPass.InlineVertexCapacity` | `crates/sgfx-backend-scarlet-virgl/src/ir_execute.rs:3399-3417` | the capacity is the largest number of vertices that still fits the transport and the limit of 1440 |
| `SplitPass.ProgrammableDrawBytes` | `crates/sgfx-backend-scarlet-virgl/src/ir_execute.rs:3419-3441` | the size of a draw from the span of its register banks; none exactly for compute constants or overflow |
| `SplitPass.ProgrammableChunkBytes` | `crates/sgfx-backend-scarlet-virgl/src/ir_execute.rs:3443-3460` | a budget exists exactly for graphics draws that share one pipeline and whose sum does not overflow |
| `SplitPass.Split` | `crates/sgfx-backend-scarlet-virgl/src/ir_execute.rs:3462-3641` | splitting fails exactly on a misplaced inline draw; otherwise the chunks do what the pass does, effect by effect, no triangle is cut, only the first chunk clears or uploads and kinds never mix; valid draws give acceptable chunks, each closed only when the first draw of the next one, or one triangle of it, could not join |
| `SplitPass.ChunkTrace` | `crates/sgfx-backend-scarlet-virgl/src/ir_execute.rs:3645-3690` | a chunk draws in the pass's frame and carries uploads and clears only when first |
| `SplitPass.ChunksExecuteTrace` | `crates/sgfx-backend-scarlet-virgl/src/ir_execute.rs:3462-3641` | on every device, submitting the chunks in order leaves the state their joint trace leaves |
| `SplitPass.AddInline` | `crates/sgfx-backend-scarlet-virgl/src/ir_execute.rs:3527-3590` | an inline draw of any length is placed over as many chunks as needed and shows exactly its own triangles in order |
| `SplitPass.ValidateTransportChunks` | `crates/sgfx-backend-scarlet-virgl/src/ir_execute.rs:2350-2386` | validation succeeds exactly when every pass is within every limit and every draw has whole primitives inside its vertices |
| `SplitPass.WholePrimitives` | `crates/sgfx-backend-scarlet-virgl/src/driver.rs:730-746` | the count check accepts exactly draws of at least one primitive of their topology with no vertex left over |
| `SplitPass.FinishPass` | `crates/sgfx-backend-scarlet-virgl/src/ir_execute.rs:2956-2980` | a pass is dropped exactly when it draws and clears nothing, refused when it then preserves nothing, and otherwise split |
| `Lowering.FromCommands` | `crates/sgfx-backend-scarlet-virgl/src/ir_execute.rs:2388-2951` | a stream is lowered exactly when every command may stand where it does, its checks pass on what the stream has built up by then and no pass is left open; executing all buffer updates first and then the events gives the buffers and the device effects of in-order execution, up to contents the stream declared undefined, and its passes validate; for every pass of the stream the effects of the events hold its clears and the triangles or whole draws of its decoded draws |
| `Lowering.ClearsExactly` | `crates/sgfx-backend-scarlet-virgl/src/ir_execute.rs:2600-2692` | a pass asks for one clear for each attachment loaded with one, target first, then colors, then depth, with that attachment's texture and value, and for none for any other |
| `Lowering.BegunMeans` | `crates/sgfx-backend-scarlet-virgl/src/ir_execute.rs:2600-2692` | the submission a pass begins with has the frame of its description, exactly those clears and nothing to draw or upload |
| `Lowering.TexturesReadNoBuffer` | `crates/sgfx-backend-scarlet-virgl/src/ir_execute.rs:2388-2700` | buffer updates may move ahead of texture operations |
| `Lowering.BufferSteps` | `crates/sgfx-backend-scarlet-virgl/src/ir_execute.rs:2540-2546` | a buffer command lowered before any pass leaves the events already lowered unchanged in meaning |
| `Lowering.LowerEnd` | `crates/sgfx-backend-scarlet-virgl/src/ir_execute.rs:2694-2710` | ending a pass, split or dropped, adds no effect beyond what its commands already asked for; it is refused as out of sequence when it does nothing and keeps nothing, and as invalid vertex data when an inline draw cannot be placed |
| `Lowering.AppendTrace` | `crates/sgfx-backend-scarlet-virgl/src/ir_execute.rs:3335-3375` | appending a decoded draw shows exactly that draw and leaves earlier ones as they were |
| `Lowering.DroppedPassIsSilent` | `crates/sgfx-core/src/backend/support/passes.rs:7-13` | a pass whose attachments all load and store asks for nothing to be forgotten |
| `DispatchRuns.AdmissionAccounting` | `crates/sgfx-backend-scarlet-virgl/src/dispatch.rs:332-421` | on every interleaving the counters are the number and bytes of unresolved streams, at most 16, beyond 64 MiB only for a stream alone |
| `DispatchLaws.AdmitsExactly` | `crates/sgfx-backend-scarlet-virgl/src/dispatch.rs:398-412` | on every interleaving an offer is too large above 512 MiB, refused after a failure, accepted when nothing is unresolved or fewer than 16 streams are and the bytes stay within 64 MiB, and busy otherwise |
| `DispatchLaws.EnqueueExactly` | `crates/sgfx-backend-scarlet-virgl/src/dispatch.rs:389-421` | an offer adds exactly its stream, last in the queue, under that condition and changes nothing otherwise |
| `DispatchLaws.FailureExactly` | `crates/sgfx-backend-scarlet-virgl/src/dispatch.rs:332-348` | the failure flag is set exactly when some stream failed or the worker gave up |
| `DispatchLaws.SubmitsExactly` | `crates/sgfx-core/src/backend/support/scheduler.rs:185-251` | the worker goes on submitting exactly while a chunk of an accepted stream is left and fewer than 16 receipts are watched |
| `DispatchLaws.ReadyExactly` | `crates/sgfx-backend-scarlet-virgl/src/dispatch.rs:266-305` | a ready chunk goes on to submission exactly when every earlier submission from its arena has retired |
| `DispatchLaws.CompletesExactly` | `crates/sgfx-core/src/backend/support/scheduler.rs:185-251` | a retiring worker completes a stream exactly when it is the oldest unresolved one, all its chunks are in the native log and none of its receipts is watched any more |
| `DispatchLaws.NeverStuck` | `crates/sgfx-backend-scarlet-virgl/src/dispatch.rs:472-551` | until the worker is gone some step of it is enabled in every reachable state |
| `DispatchLaws.IdleAsked` | `crates/sgfx-backend-scarlet-virgl/src/dispatch.rs:423-440` | an idle wait is refused after a failure, granted when everything accepted is resolved, and otherwise waits for the newest stream |
| `DispatchLaws.IdleReturns` | `crates/sgfx-backend-scarlet-virgl/src/dispatch.rs:423-440` | a waiter returns exactly once the signal of its stream shows, with yes exactly when that stream succeeded |
| `DispatchLaws.WaitIdleNo` | `crates/sgfx-backend-scarlet-virgl/src/dispatch.rs:423-440` | an idle wait is answered no only after a stream failed or the worker gave up |
| `DispatchRuns.NothingAfterFailure` | `crates/sgfx-backend-scarlet-virgl/src/dispatch.rs:398-412` | after a failure nothing is admitted and the failure stays |
| `DispatchRuns.AllResolvedWhenGone` | `crates/sgfx-backend-scarlet-virgl/src/dispatch.rs:472-551` | when the worker is gone every accepted signal shows an outcome, and only failure or closing ends it |
| `DispatchRuns.OutcomesStay` | `crates/sgfx-backend-scarlet-virgl/src/dispatch.rs:332-348` | an outcome never changes, so every signal is resolved at most once |
| `DispatchRuns.WaitIdleTruthful` | `crates/sgfx-backend-scarlet-virgl/src/dispatch.rs:423-440` | an idle wait answered yes means every stream accepted before its snapshot succeeded |
| `DispatchRuns.SuccessMeansRetired` | `crates/sgfx-core/src/backend/support/scheduler.rs:185-251` | a stream that succeeded was submitted chunk by chunk at its place in the concatenation of accepted streams, none skipped or repeated, and every chunk retired |
| `DispatchRuns.ArenasExclusive` | `crates/sgfx-backend-scarlet-virgl/src/dispatch.rs:266-305` | no upload arena ever has two unretired submissions, and at most 16 receipts are watched |
| `Admission.TransferAccepted` | `crates/sgfx-core/src/backend/support/scheduler.rs:145-172` | a stream admitted globally is never refused by the worker's own admission rule |
| `Admission.CoreStep` | `crates/sgfx-backend-scarlet-virgl/src/dispatch.rs:332-551` | every step of producers, worker and waiters keeps queue order, accounting, outcome order and announced results |
| `NativeLog.LoggedStep` | `crates/sgfx-core/src/backend/support/scheduler.rs:185-251` | every step keeps the native log a prefix of the concatenated streams and every unretired submission watched |
| `NativeLog.CursorPosition` | `crates/sgfx-core/src/backend/support/scheduler.rs:221-250` | the next chunk to submit is exactly the one at the end of the log |
| `Arenas.PoisedStep` | `crates/sgfx-backend-scarlet-virgl/src/dispatch.rs:266-305` | a chunk found ready stays ready until it is submitted, whatever producers do |
| `Packets.Packets.Append` | `crates/sgfx-core/src/backend/support/packets.rs:67-99` | a packet is added whole at the end of the stream exactly when it fits the chunk and stream limits; an oversized one changes nothing |
| `Packets.Packets.Prepare` | `crates/sgfx-core/src/backend/support/packets.rs:45-53` | after it the next packet up to that size stays in the chunk whose arena was chosen; refused exactly above the limit, without rotating |
| `Packets.Packets.UploadRange` | `crates/sgfx-core/src/backend/support/packets.rs:55-65` | ranges of one chunk are disjoint, inside the arena, and the chunk names the arena they were given |
| `Packets.Packets.Finish` | `crates/sgfx-core/src/backend/support/packets.rs:114-119` | the chunks concatenate to exactly the packets in order, each within the limit, and there is always at least one |
| `Packets.ArenasRotate` | `crates/sgfx-core/src/backend/support/packets.rs:55-65` | two chunks of one stream share an arena only when a multiple of four apart |
| `Packets.SubmitMode.Flush` | `crates/sgfx-backend-scarlet-virgl/src/completion.rs:239-294` | as written it stops on every tracked submission, with nothing offered to the scheduler, and does nothing for a synchronous one |
| `Packets.SubmitMode.FlushLeaving` | `crates/sgfx-backend-scarlet-virgl/src/completion.rs:239-294` | with packets of positive limit left in place the whole finished stream is offered once: a receipt exists exactly when the bytes are at most 512 MiB, nothing failed and there is room (none unresolved, or fewer than 16 and at most 64 MiB together); busy, too large and refused are told apart, and a chunk naming an arena the call lacks offers nothing |
| `Packets.ReceiptNamesStream` | `crates/sgfx-backend-scarlet-virgl/src/dispatch.rs:389-421` | an admitted offer is the last accepted stream, of exactly the bytes of the packets, and waits in the inbox under the receipt; anything else changes nothing |
| `Packets.SubmitMode.Finish` | `crates/sgfx-backend-scarlet-virgl/src/completion.rs:306-327` | a tracked caller learns of every admitted stream and of no other: a receipt comes back exactly when one exists, busy and rejection only when nothing was admitted; a synchronous call has none |
| `Wake.NoLostWake` | `crates/sgfx-backend-scarlet-virgl/src/dispatch.rs:84-131` | while every write puts its byte in the pipe, a worker about to sleep on a queued job finds a byte or is owed one |
| `Wake.OneByte` | `crates/sgfx-backend-scarlet-virgl/src/dispatch.rs:84-131` | with certain writes at most one byte is in the pipe or owed, and the flag says exactly that |
| `Wake.AnnouncedExactly` | `crates/sgfx-backend-scarlet-virgl/src/dispatch.rs:92-131` | a step leaves a queued job unannounced exactly when it loses the only byte owed, or trusts a set flag with nothing owed behind it, while the worker is past draining |
| `Wake.RunAnnouncedExactly` | `crates/sgfx-backend-scarlet-virgl/src/dispatch.rs:92-131` | over every run, jobs stay announced in all states if and only if no step is such a one |
| `Wake.RunBackedExactly` | `crates/sgfx-backend-scarlet-virgl/src/dispatch.rs:92-131` | over every run, every set flag stays backed by a byte or one to come if and only if no write loses the only byte behind it |
| `Wake.OnlyLossLoses` | `crates/sgfx-backend-scarlet-virgl/src/dispatch.rs:92-112` | where every set flag is backed, only a lost write can lose the wake |
| `Wake.LostWriteLosesWake` | `crates/sgfx-backend-scarlet-virgl/src/dispatch.rs:102-112` | a concrete run in which a lost write leaves the worker asleep on a queued job with nothing owed |
| `Wake.UncertainWriteDoubles` | `crates/sgfx-backend-scarlet-virgl/src/dispatch.rs:102-131` | a write reported failed that did land can put a second byte in the pipe |
| `Wake.WokenApproaches` | `crates/sgfx-backend-scarlet-virgl/src/dispatch.rs:488-510` | every step of a woken worker brings it closer to draining or stops it, and no notifier moves it |
| `Wake.WokenWorkerDrains` | `crates/sgfx-backend-scarlet-virgl/src/dispatch.rs:492-510` | along every run a draining worker leaves only with an empty inbox, having taken every job queued before and every job pushed meanwhile |
| `DispatchWake.LinkedStep` | `crates/sgfx-backend-scarlet-virgl/src/dispatch.rs:386-551` | dispatcher and byte stay together: the inbox the byte announces is the dispatcher's until the worker fails |
| `DispatchWake.RunAnnouncedExactly` | `crates/sgfx-backend-scarlet-virgl/src/dispatch.rs:386-551` | over every run of producers, worker and byte together, accepted jobs stay announced to a worker that has not failed if and only if no step of the byte loses the wake |
| `DispatchWake.SleepingWorkerOwed` | `crates/sgfx-backend-scarlet-virgl/src/dispatch.rs:386-551` | while every write lands, a worker asleep over an accepted pending job has a byte in its pipe or a notifier about to put one there |
| `Compute.MemoryIsEffects` | `crates/sgfx-backend-scarlet-virgl/src/compute_ir.rs:192-498` | running commands one at a time is applying their memory effects in order |
| `ComputeControl.ControlLaw` | `crates/sgfx-backend-scarlet-virgl/src/compute_ir.rs:222-275` | after any commands each pushed byte is that of the last push covering it, the pipeline and each bind group are those last set since the pass began, or absent, and a pass is open exactly when the last begin has no end after it |
| `ComputeControl.PushSetExactly` | `crates/sgfx-backend-scarlet-virgl/src/compute_ir.rs:222-275` | a byte counts as pushed exactly when a push since the last pass began covers it |
| `ComputeControl.EventTold` | `crates/sgfx-backend-scarlet-virgl/src/compute_ir.rs:272-422` | a planned dispatch has the pipeline, pushed words, storage ranges and uniform reads that the commands before it last set |
| `ComputeControl.StreamTold` | `crates/sgfx-backend-scarlet-virgl/src/compute_ir.rs:192-498` | the same for every dispatch of a planned stream, at its place among the events |
| `ComputeLaunch.LaunchOn` | `crates/sgfx-backend-scarlet-virgl/src/compute.rs:97-194` | one backing per distinct buffer takes its contents, the kernel runs on them, and exactly the written ones are copied back |
| `ComputeMirror.LaunchMirrors` | `crates/sgfx-backend-scarlet-virgl/src/compute.rs:97-135` | a launch through deduplicated staged buffers does to them what it does to the resources, aliases included, and to no other |
| `ComputeMirror.FillMatches` | `crates/sgfx-backend-scarlet-virgl/src/compute_ir.rs:533-549` | uniform words filled at execution are those of the resources at that stream position |
| `ComputeMirror.AllMirrors` | `crates/sgfx-backend-scarlet-virgl/src/compute_ir.rs:501-562` | performing all planned events mirrors all effects of the stream, for every kernel |
| `ComputePlan.Plan.Buffer` | `crates/sgfx-backend-scarlet-virgl/src/compute_ir.rs:146-184` | a touched buffer is staged once, at its accepted contents zero-extended to its size, with its next revision; it is refused exactly when no planner accepts it or it does not fit what may be held |
| `ComputePlan.Plan.Retain` | `crates/sgfx-backend-scarlet-virgl/src/compute_ir.rs:138-145` | retained memory grows only within 64 MiB |
| `ComputePlan.Plan.Range` | `crates/sgfx-backend-scarlet-virgl/src/compute_ir.rs:185-191` | exactly the ranges inside the staged buffer are accepted, overflow told apart |
| `ComputePlan.Plan.PlanCopy` | `crates/sgfx-backend-scarlet-virgl/src/compute_ir.rs:444-481` | overlapping ranges of one buffer are refused; an accepted copy means the recorded one |
| `ComputePlan.Plan.PlanDispatch` | `crates/sgfx-backend-scarlet-virgl/src/compute_ir.rs:272-422` | an accepted dispatch carries the push constants, storage ranges and bindings last set by the commands since its pass began, every byte its shader requires pushed in that pass |
| `ComputePlan.PlanPush` | `crates/sgfx-backend-scarlet-virgl/src/compute_ir.rs:399-413` | push constants enter the bank exactly when every required byte was pushed |
| `ComputePlan.NothingTruncated` | `crates/sgfx-backend-scarlet-virgl/src/compute_ir.rs:414` | the final truncation of the bank drops nothing |
| `ComputeCost.StreamExactly` | `crates/sgfx-backend-scarlet-virgl/src/compute_ir.rs:138-498` | taking the commands one by one, each paid for as the planner does, succeeds exactly when every command fits where it stands and all that is held at the end fits the limit |
| `ComputePlan.Plan.Lower` | `crates/sgfx-backend-scarlet-virgl/src/compute_ir.rs:192-498` | a stream is planned exactly when every command fits where it stands, no pass is left open and the memory held fits; its events match the effects of in-order execution, every command stands where it may relative to the pass last begun, and every dispatch carries what the commands before it last set in its pass |
| `ComputePlan.Plan.Execute` | `crates/sgfx-backend-scarlet-virgl/src/compute_ir.rs:501-562` | execution succeeds exactly when every dispatch does; a stop names its event and whether work was accepted by then; after preflight no dispatch is turned away for the size of its packet |
| `ComputePlan.Plan.ExecuteOne` | `crates/sgfx-backend-scarlet-virgl/src/compute.rs:97-194` | one event: the late size check turns a dispatch away only when its packet bound was over the limit |
| `ComputePlan.FillBank` | `crates/sgfx-backend-scarlet-virgl/src/compute_ir.rs:533-549` | the words of the bank after all uniforms are read |
| `ComputeSubmit.Resources.Submit` | `crates/sgfx-backend-scarlet-virgl/src/compute_ir.rs:566-641` | success, exactly for plannable streams whose packets fit and whose dispatches all succeed, publishes every touched buffer at its next revision with the in-order contents, no delta and no tag; anything else publishes nothing, and the cache is poisoned exactly when work had been accepted |
| `ComputeSubmit.Resources.Publish` | `crates/sgfx-backend-scarlet-virgl/src/compute_ir.rs:11-21` | publication replaces exactly the touched shadows and tags |
| `ComputeSubmit.Resources.PacketsFit` | `crates/sgfx-backend-scarlet-virgl/src/compute_ir.rs:585-604` | preflight accepts exactly when every dispatch packet bound is within the limit |
| `ComputePacket.DispatchPacket` | `crates/sgfx-backend-scarlet-virgl/src/compute.rs:97-194` | the emitted packet is never larger than the preflight bound and equal to it when every binding has its own written buffer; read back header by header it is exactly the commands expected: shader, constants, uploads, bindings, launch, barrier, readbacks of what may be written, and the undoing of the bindings |
| `ComputePacket.Backings` | `crates/sgfx-backend-scarlet-virgl/src/compute.rs:97-135` | one backing for each distinct buffer and no other |
| `ComputePacket.PushShader` | `crates/sgfx-backend-scarlet-virgl/src/virgl.rs:4734-4775` | shader text goes out in parts of 16 KiB, the first announcing the length and each later one its offset |
| `ComputePacket.TextCarried` | `crates/sgfx-backend-scarlet-virgl/src/virgl.rs:4734-4775` | the parts joined in order are the whole text |
| `DrawCache.ConstantsReused` | `crates/sgfx-backend-scarlet-virgl/src/ir_execute.rs:1785-1883` | constants reused across different bind groups are exactly those a rebuild would give whenever the other checks pass |
| `DrawCache.ReuseConstants` | `crates/sgfx-backend-scarlet-virgl/src/ir_execute.rs:1785-1883` | the flags of both shaders are compared before the ranges of either; constants are reused exactly when the keys differ at most in groups that keep every effective range and sRGB flag, and an error means no rebuild could succeed either |
| `DrawCache.ActivePass.DecodeDraw` | `crates/sgfx-backend-scarlet-virgl/src/programmable.rs:943-1320` | whatever preceded it in the pass, a draw gets what rebuilding from the current state gives: for each storage, query, texture, uniform and push binding of either shader the entry at its stage and register with the words or texture the bound group gives; it fails exactly when a binding finds nothing usable or its indices or fetches would leave their buffers |
| `DrawLaw.DrawMeans` | `crates/sgfx-backend-scarlet-virgl/src/programmable.rs:943-1320` | rebuilding a draw succeeds exactly when every binding of both shaders finds a usable resource, and then shows each of them |
| `DrawLaw.ShaderMeans` | `crates/sgfx-backend-scarlet-virgl/src/programmable.rs:960-1234` | one shader: offset then size for storages, level counts for queries, textures with their sRGB flags per slot, little-endian words for uniform and push bytes, each at its own register |
| `DrawCache.ActivePass.SetPushConstants` | `crates/sgfx-backend-scarlet-virgl/src/ir_execute.rs:2711-2735` | bytes are set for exactly the named stages inside the 128-byte bank; the compute stage is refused before the range is checked |
| `DrawParts.ConstantWords` | `crates/sgfx-backend-scarlet-virgl/src/programmable.rs:817-847` | inline and shared banks hold exactly the padded words; refused exactly for sizes no bank has |
| `DrawCache.BuildShader` | `crates/sgfx-backend-scarlet-virgl/src/programmable.rs:960-1234` | the bindings of one shader as rebuilt, or the same without constants when they are reused |
| `VertexInput.TypeArena.InputType` | `crates/sgfx-backend-wgpu/src/vertex_input.rs:94-137` | narrowing fails exactly on a packed location that is not a float vector; otherwise the result is the type with exactly the packed locations narrowed, at any nesting |
| `VertexInput.DecodeTyped` | `crates/sgfx-backend-wgpu/src/vertex_input.rs:94-153` | well-typed narrowed inputs decode to well-typed originals |
| `VertexInput.Wrapper.InputValue` | `crates/sgfx-backend-wgpu/src/vertex_input.rs:155-273` | the emitted expression holds, for all arguments, the decoded input; expressions refer only to earlier handles and are emitted in order |
| `VertexInput.Wrapper.EmitPacked` | `crates/sgfx-backend-wgpu/src/vertex_input.rs:196-273` | the code for one packed vector gives, for every four codes the word packs, their normalized values in order |
| `VertexInput.DecodePacked` | `crates/sgfx-backend-wgpu/src/vertex_input.rs:209-265` | decoding the word that packs x, y and z in ten bits each and w in the top two gives their normalized values in that order |
| `VertexInput.DecodeRestores` | `crates/sgfx-backend-wgpu/src/vertex_input.rs:155-273` | the decoded input is the one value in which every packed word, at any nesting, is replaced by the vector it packs |
| `Snorm.WordPacked` | `crates/sgfx-backend-wgpu/src/vertex_input.rs:209-241` | every 32-bit word packs the codes of its four fields |
| `VertexInput.FieldMeaning` | `crates/sgfx-backend-wgpu/src/vertex_input.rs:209-265` | the nine emitted expressions compute the signed-normalized value of their field |
| `VertexInput.EmitsOrdered` | `crates/sgfx-backend-wgpu/src/vertex_input.rs:139-153` | each computed expression is emitted once, in handle order |
| `VertexInput.EvalStable` | `crates/sgfx-backend-wgpu/src/vertex_input.rs:139-153` | appending expressions changes no earlier value |
| `VertexInput.LowerPackedInputs` | `crates/sgfx-backend-wgpu/src/vertex_input.rs:9-84` | the wrapper exists exactly when every packed location is a float vector; each call argument is then its input with the words at packed locations, at any nesting, replaced by the values they pack |
| `VertexInput.WrapperMeaning` | `crates/sgfx-backend-wgpu/src/vertex_input.rs:34-84` | for every inner function and all well-typed inputs the wrapper is the inner function on decoded inputs |
| `Snorm.ShiftsExtract` | `crates/sgfx-backend-wgpu/src/vertex_input.rs:209-241` | shift left then arithmetic shift right sign-extends each of the four fields, for every word |
| `Snorm.NormalizedRange` | `crates/sgfx-backend-wgpu/src/vertex_input.rs:242-265` | every field lands in [-1, 1], with zero, one and both minus-one codes exact |
| `Snorm.NormalizedInjective` | `crates/sgfx-backend-wgpu/src/vertex_input.rs:242-265` | distinct codes above the lowest stay distinct and ordered |
| `Textures.ConvertTextureUpload` | `crates/sgfx-backend-scarlet-virgl/src/ir_execute.rs:4168-4274` | accepted exactly for existing levels and layers, rectangles inside the level and data that holds every row; the pixels are the tight rows in storage order, for every stride and format |
| `Textures.StoredAt` | `crates/sgfx-backend-scarlet-virgl/src/ir_execute.rs:4168-4274` | each pixel in storage: red and blue exchanged, missing channels clear and alpha opaque exactly for the formats storage does not keep |
| `Textures.MipSide` | `crates/sgfx-core/src/ir/resource.rs:372-381` | the side of a mip level holds exactly the ends that fit the side divided by that power of two, and is never empty |
| `Textures.StoredPacked` | `crates/sgfx-backend-scarlet-virgl/src/programmable.rs:753-775` | storing and packing back returns the bytes, for every format |
| `Textures.UploadReadback` | `crates/sgfx-backend-scarlet-virgl/src/programmable.rs:739-775` | conversion for upload, an exact device and the readback conversion return the tight source rows, for every accepted write, stride and format |
| `Textures.PackColorReadback` | `crates/sgfx-backend-scarlet-virgl/src/programmable.rs:753-775` | packing in place loses no byte before it is used and leaves exactly the packed channels |
| `Textures.CompactRows` | `crates/sgfx-backend-wgpu/src/readback.rs:145-157` | overlapping in-place compaction leaves exactly the tight rows |
| `Textures.PaddedRowsReturn` | `crates/sgfx-backend-wgpu/src/readback.rs:145-157` | a device that copied tight rows into padded ones gets exactly those rows back |
| `Textures.RowStride` | `crates/sgfx-backend-wgpu/src/readback.rs:96-109` | the padded row is the next multiple of 256, when it still fits 32 bits |

## Left out

- The mapping of native completion records and error codes in `completion.rs`: outcomes enter `Dispatch` and `ComputePlan` as results of a step.
- The command encoder in `virgl.rs` beyond the compute packet: straight-line encoding.
- How an empty plan completes: the flag that a content-preserving pass was dropped is modelled, the branch that reads it is not.
- Draw decoding of fixed-function pipelines, descriptor and format checks of texture commands, enum lowering: `Lowering` takes them as functions of what they read (`Device`).
- Lowering.FromCommands: the exact condition for success is stated for revisions below the largest word, and nothing is said of which error a failing device check gives, because those checks are parameters.
- Out-of-memory branches, except the reservation of shadow storage, that index-cache block storage may be unavailable and that every failed plan operation leaves the plan unchanged.
- Packets.SubmitMode.FlushLeaving: out of memory while chunks, signal or job are made is not modelled; the scheduler's answer is that of its admission rule.
- A tracked stream whose work fails after acceptance poisons the cache; runs of `Submissions` end there.
- Snapshot and restore of texture, sampler and pipeline initialization flags: only the recorded buffer revisions are in the model.
- `BufferIntervals` clone failure and the `CopyRange` reader over overlays: allocation and a second reader of the same overlays.
- The word-wise block comparison of `buffer_diff.rs`: modelled as equality of the compared bytes.
- The index of one buffer is held as a value inside its update entry, and plan slots and revisions of a compute plan as two lists of equal length.
- The hash of the block cache is any function; the buffer identity in the cache key is its slot.
- DispatchRuns.AdmissionAccounting: the state machine works on values, with each critical section one step, so mutex hand-over and memory ordering of the flags are not modelled.
- Liveness: that a native submission eventually retires, and fairness between producers, are assumptions outside the model.
- Uploads.IrBuffer.Prepare: does not model when staged commands execute, only the bytes they leave in order; `Submissions` does.
- ComputePacket.DispatchPacket: framing is stated for at most 65533 constants, because a packet header keeps sixteen bits of payload length.
- DrawCache.ActivePass.DecodeDraw: does not model the attachment and primitive-count checks of the pipeline, since the cache does not touch them, nor the values of errors.
- Shader compilation, module validation, entry-point naming and the removal of bindings from the wrapped function: not part of this model.
- Snorm.NormalizedRange: normalization is over exact reals; rounding of 32-bit division is not modelled.
- DrawParts.ConstantWords: the source reads constant bytes in the byte order of its machine (`programmable.rs:817-847`); the model takes the little-endian order of the machines it runs on.
- Queries, timestamps, image mapping, the C ABI, driver discovery and profiling: outside the planning and submission core.
