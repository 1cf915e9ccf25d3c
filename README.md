# tomviz core, modelled in Dafny

This project models the deterministic core of tomviz, a tomography
visualisation and reconstruction application, and proves properties of it.
Most Dafny files model one source file, in the source's own form; a few
hold shared pieces (`wrappers.dfy`, `json.dfy`, `qstring_arg.dfy`,
`cli_state.dfy`) or split one large source file in two. State the
source updates in place is a `class` whose methods list what they modify and
state the whole new state; pure computation is functions and lemmas; loops
are methods with invariants.

- **Pipeline execution** (`pipeline_worker.dfy`). A pipeline `Run` owns a
  queue of runnable operators, a running slot, a completed list and a state.
  The thread pool and the single-shot timer become sets and flags. Each slot
  or public call is an event with a step function. The properties proved:
  - at most one operator runs at a time;
  - operators are dispatched in queue order;
  - an error halts the run;
  - a run that has halted stays halted.

  The step functions `Started`, `StartNext`, `Completed`, `CancelRun`,
  `CanceledOp`, `Added` and `ThreadCount` are what the `Run` methods are
  proved against. What they promise is stated by the lemmas listed for
  the same source lines in the table below.
- **Data I/O helpers**:
  - C and Fortran array re-ordering, with their round trips
    (`generic_hdf5.dfy`);
  - the HDF5 subsample bounds, strides and counts;
  - the recent-files lists kept in the settings (`recent_files.dfy`);
  - the PyXRF log-file table (`pyxrf_log.dfy`), whose read-then-write
    round trip is proved.
- **Render modules**:
  - the multi-volume switch of `VolumeManager`;
  - slice and clip directions and clamping;
  - RGBA mapping and per-component ranges of the volume module;
  - the array choices of the contour module;
  - the interaction flags of `ActiveObjects`.
- **Colour-map presets** and their table model (`color_map.dfy`,
  `preset_model.dfy`).
- **Acquisition file-name patterns** (`basic_format.dfy`,
  `advanced_format.dfy`, `regex_text.dfy`): the regular expressions built
  from a format, the Qt-to-Python rewrite, and what the widgets do with a
  match's captures.
- **Operators**:
  - crop bounds, with a serialize/deserialize round trip;
  - the array wrangler's component extraction and its guards;
  - sinogram extraction and tilt averaging over flat buffers
    (`tilt_series.dfy`);
  - manual manipulation: cyclic shift in place, and centred pad/crop;
  - the tortuosity graph: coordinate and neighbour enumeration, node
    numbering, edges, face edges, sparse triplets, distance map, slices.
- **Dialogs**: animation helper labels and selection, select-items, and the
  combo-box text editor.
- **Command-line runner**:
  - the state file's data sources;
  - pipeline selection;
  - output naming;
  - read options and data paths;
  - dependency discovery and memoised loading;
  - the external `Dataset` object.

Some behaviour is kept as the source has it, because it is what the code
does:
- `Run::cancel` does not clear the queue.
- A cancel before the first timer tick still lets the first operator be
  dispatched.
- The running slot is never cleared after a completion, so a later cancel
  takes the running branch for that finished operator. In the source this is
  a use after free: `operatorComplete` has handed the runnable to
  `deleteLater` (`tomviz/PipelineWorker.cxx:199`), so `m_running` may point
  at a deleted object. The model names runnables by value and records the
  cancel request; it does not model the dangling pointer.
- `ConfigureThreadPool` asks for 0 threads when the ideal count is 1.
- `transform` in `ManualManipulation.py` raises when no rotation is given.
- Two inputs in one directory that differ only in their HDF5 extension
  write the same output file (`Cli.SharedStemSharesOutput`).
- A dependency listed twice has its child pipeline run twice.
- A run over an empty operator list is never marked COMPLETE and never
  emits `finished`, unless an operator is added before the start timer
  fires: startNextOperator finds the queue empty, so no completion ever
  arrives, and addOperator itself never dispatches
  (`PipelineWorker.StartNextEmptyQueue`, `PipelineWorker.AddOperatorOutcome`).

## Model

| member | source | states |
|---|---|---|
| PipelineWorker.EnqueuedDistinct | tomviz/PipelineWorker.cxx:138-145 | every runnable enqueued over a run's life is a distinct object |
| PipelineWorker.PendingDistinct | tomviz/PipelineWorker.cxx:160-169 | dispatched and still-queued runnables never repeat or overlap; a queued runnable was enqueued and neither dispatched nor removed |
| PipelineWorker.Units | tomviz/PipelineWorker.cxx:138-145 | one runnable per operator, in list order, all bound to the same data object |
| PipelineWorker.Create | tomviz/PipelineWorker.cxx:138-145 | a new run is CREATED, has nothing running or completed, and queues exactly one runnable per operator in list order on the given data |
| PipelineWorker.FirstOf | tomviz/PipelineWorker.cxx:227-232 | finds the first queued runnable whose operator is `op`, or reports that none has it |
| PipelineWorker.StartNextValid | tomviz/PipelineWorker.cxx:160-169 | startNextOperator keeps the run invariant and moves the queue head to the dispatched list without losing or reordering runnables |
| PipelineWorker.StepValid | tomviz/PipelineWorker.cxx:138-250 | every event (start, timer, completion, cancel, cancel(op), addOperator) preserves the run invariant |
| PipelineWorker.TraceValid | tomviz/PipelineWorker.cxx:138-250 | the run invariant holds after any sequence of enabled events |
| PipelineWorker.StartOnlySchedules | tomviz/PipelineWorker.cxx:147-158 | start sets RUNNING and arms the timer; nothing is dequeued or submitted to the pool |
| PipelineWorker.FirstDispatchIsHead | tomviz/PipelineWorker.cxx:147-169 | after start and the timer, the pool holds exactly the runnable of the first operator and the queue holds the rest in order |
| PipelineWorker.StartNextEmptyQueue | tomviz/PipelineWorker.cxx:160-169 | startNextOperator on an empty queue changes nothing |
| PipelineWorker.AtMostOneRunning | tomviz/PipelineWorker.cxx:160-200 | at most one runnable is in the pool at any time |
| PipelineWorker.DispatchFollowsQueueOrder | tomviz/PipelineWorker.cxx:160-169 | dispatched runnables followed by queued ones are always the enqueued runnables in enqueue order minus those cancel(op) removed |
| PipelineWorker.CompletionRecorded | tomviz/PipelineWorker.cxx:171-175 | a completion always appends its runnable to the completed list |
| PipelineWorker.CanceledCompletion | tomviz/PipelineWorker.cxx:178-181 | once the run or the unit is canceled, a completion emits `canceled`, keeps the state and dispatches nothing |
| PipelineWorker.HaltedStep | tomviz/PipelineWorker.cxx:171-250 | for a halted run (COMPLETE or CANCELED, with nothing in the pool and no start timer pending) no event restarts it, dispatches for it, or lets addOperator enqueue; a run canceled before the first tick is not halted and still dispatches (CancelBeforeFirstDispatch) |
| PipelineWorker.HaltedForever | tomviz/PipelineWorker.cxx:171-250 | a halted run stays halted and dispatches nothing through any event sequence |
| PipelineWorker.ErrorHaltsRun | tomviz/PipelineWorker.cxx:182-189 | a failing result on a live run emits finished(false), marks it COMPLETE, and no later event dispatches another operator |
| PipelineWorker.SuccessContinues | tomviz/PipelineWorker.cxx:190-198 | a successful result dispatches the queue head, or with an empty queue marks the run COMPLETE and emits finished(true) |
| PipelineWorker.CancelOutcome | tomviz/PipelineWorker.cxx:202-214 | cancel() always ends CANCELED with an empty slot and the queue kept; it emits `canceled` itself iff nothing was running, else it asks the running operator to cancel |
| PipelineWorker.CancelAfterNormalCompletion | tomviz/PipelineWorker.cxx:190-214 | the slot survives a normal completion, so a later cancel() takes the running branch, asks the finished operator to cancel and emits nothing; in the source that operator's runnable was handed to deleteLater at the completion, so this cancel() reads a dangling pointer |
| PipelineWorker.CancelBeforeFirstDispatch | tomviz/PipelineWorker.cxx:147-214 | a run canceled before the timer fires still submits its first operator, after `canceled` was emitted |
| PipelineWorker.CancelTakenIsSilent | tomviz/PipelineWorker.cxx:202-213 | when the runnable is taken back from the pool, cancel() emits nothing and the pool is empty |
| PipelineWorker.CancelOpOutcome | tomviz/PipelineWorker.cxx:216-234 | cancel(op): the running op cancels the run and answers false; a queued op loses its first runnable with the rest in order and answers true; otherwise nothing changes and the answer is false |
| PipelineWorker.AddOperatorOutcome | tomviz/PipelineWorker.cxx:241-250 | addOperator appends at the tail without dispatching iff the run is RUNNING, and otherwise answers false and changes nothing |
| PipelineWorker.ThreadCountBounds | tomviz/PipelineWorker.cxx:126-136 | the pool size is never negative, at most the ideal count when that is positive, and zero exactly when the ideal count is 1 |
| PipelineWorker.Run.constructor | tomviz/PipelineWorker.cxx:138-145 | the run's state is Create(data, ops) |
| PipelineWorker.Run.Start | tomviz/PipelineWorker.cxx:147-158 | the new state is Started of the old one |
| PipelineWorker.Run.StartNextOperator | tomviz/PipelineWorker.cxx:160-169 | the new state is StartNext of the old one |
| PipelineWorker.Run.TimerFired | tomviz/PipelineWorker.cxx:153-153 | the single-shot timer's callback runs startNextOperator |
| PipelineWorker.Run.OperatorComplete | tomviz/PipelineWorker.cxx:171-200 | the new state is Completed of the old one for the reported result |
| PipelineWorker.Run.Cancel | tomviz/PipelineWorker.cxx:202-214 | the new state is CancelRun of the old one |
| PipelineWorker.Run.CancelOp | tomviz/PipelineWorker.cxx:216-234 | the new state and the answer are CanceledOp of the old state |
| PipelineWorker.Run.IsRunning | tomviz/PipelineWorker.cxx:236-239 | true iff the state is RUNNING |
| PipelineWorker.Run.AddOperator | tomviz/PipelineWorker.cxx:241-250 | the new state and the answer are Added of the old state |
| PipelineWorker.Run.Operators | tomviz/PipelineWorker.cxx:252-255 | returns the operator list the run was built with (addOperator does not extend it) |
| PipelineWorker.Future.constructor | tomviz/PipelineWorker.cxx:278-280 | the future wraps the given run |
| PipelineWorker.Future.Cancel | tomviz/PipelineWorker.cxx:287-290 | forwards to Run.cancel() |
| PipelineWorker.Future.CancelOp | tomviz/PipelineWorker.cxx:292-295 | forwards to Run.cancel(op) |
| PipelineWorker.Future.IsRunning | tomviz/PipelineWorker.cxx:297-300 | forwards to Run.isRunning() |
| PipelineWorker.Future.Result | tomviz/PipelineWorker.cxx:302-305 | returns the run's data object |
| PipelineWorker.Future.AddOperator | tomviz/PipelineWorker.cxx:307-310 | forwards to Run.addOperator |
| PipelineWorker.Future.Operators | tomviz/PipelineWorker.cxx:312-315 | forwards to Run.operators() |
| PipelineWorker.RunPipeline | tomviz/PipelineWorker.cxx:265-276 | every operator is reset in order, then a fresh run over the list is created and started |
| PipelineWorker.RunOne | tomviz/PipelineWorker.cxx:257-263 | the single-operator overload runs a one-element list |
| GenericHdf5.CIdxRange | tomviz/GenericHDF5Format.cxx:45-46 | the C-order offset of every (i, j, k) in the box is in [0, d0·d1·d2) |
| GenericHdf5.FIdxRange | tomviz/GenericHDF5Format.cxx:58-59 | the Fortran-order offset of every (i, j, k) in the box is in [0, d0·d1·d2) |
| GenericHdf5.DecCIdx | tomviz/GenericHDF5Format.cxx:45-46 | decoding a C offset recovers its coordinates |
| GenericHdf5.DecFIdx | tomviz/GenericHDF5Format.cxx:58-59 | decoding a Fortran offset recovers its coordinates |
| GenericHdf5.CIdxDecC | tomviz/GenericHDF5Format.cxx:42-49 | every C offset below the size is reached by some coordinate in the box |
| GenericHdf5.FIdxDecF | tomviz/GenericHDF5Format.cxx:55-62 | every Fortran offset below the size is reached by some coordinate in the box |
| GenericHdf5.LayoutsInjective | tomviz/GenericHDF5Format.cxx:39-63 | both layouts number the box injectively, so each reorder writes every output index exactly once |
| GenericHdf5.FToCAt | tomviz/GenericHDF5Format.cxx:45-46 | the C-ordered copy holds element (i, j, k) of the Fortran buffer at its C offset |
| GenericHdf5.CToFAt | tomviz/GenericHDF5Format.cxx:58-59 | the Fortran-ordered copy holds element (i, j, k) of the C buffer at its Fortran offset |
| GenericHdf5.CToFToC | tomviz/GenericHDF5Format.cxx:39-63 | ReorderArrayF followed by ReorderArrayC restores the buffer |
| GenericHdf5.FToCToF | tomviz/GenericHDF5Format.cxx:39-63 | ReorderArrayC followed by ReorderArrayF restores the buffer |
| GenericHdf5.ReorderArrayC | tomviz/GenericHDF5Format.cxx:39-50 | the output array holds the C-ordered copy of the Fortran-ordered input |
| GenericHdf5.ReorderArrayF | tomviz/GenericHDF5Format.cxx:52-63 | the output array holds the Fortran-ordered copy of the C-ordered input |
| GenericHdf5.ReorderedRoundTrip | tomviz/GenericHDF5Format.cxx:65-81 | re-ordering an array one way and then the other restores its values |
| GenericHdf5.ReorderedArraysRoundTrip | tomviz/GenericHDF5Format.cxx:122-132 | the re-ordered arrays keep the names and order of the input arrays, and re-ordering back gives the originals |
| GenericHdf5.Image.constructor | tomviz/GenericHDF5Format.cxx:93-93 | a new image has no arrays, no active scalars, no field data and empty dimensions |
| GenericHdf5.ReorderInto | tomviz/GenericHDF5Format.cxx:101-136 | out loses its arrays, takes in's structure, gets one re-ordered array per input array with the same name and order, and in's active scalars; its field data is kept |
| GenericHdf5.ReorderInPlace | tomviz/GenericHDF5Format.cxx:83-99 | the image's arrays are re-ordered, and its dimensions, active scalars and field data are unchanged |
| GenericHdf5.RequestedStrides | tomviz/GenericHDF5Format.cxx:365-376 | three strides, each at least 1 |
| GenericHdf5.StridesClamped | tomviz/GenericHDF5Format.cxx:365-376 | a caller stride of at least 1 is kept as given; missing or smaller ones become 1 |
| GenericHdf5.FinalSelectionValid | tomviz/GenericHDF5Format.cxx:435-465 | after the final check, whatever bounds went in, every axis has 0 ≤ lower ≤ upper ≤ dims[i] and counts[i] = (upper − lower) / stride[i] with the last sample in range |
| GenericHdf5.ReadVolumeSelectionValid | tomviz/GenericHDF5Format.cxx:328-479 | readVolume succeeds exactly for a 3-D dataset whose subsample dialog (if asked for) is accepted and whose readData call succeeds, and then reads a valid hyperslab; a failed read is reported as an error |
| GenericHdf5.DefaultReadsWholeVolume | tomviz/GenericHDF5Format.cxx:357-363 | without options on a volume with every dim below 1200, the whole volume is read with stride 1 and without subsampling |
| GenericHdf5.FillBounds | tomviz/GenericHDF5Format.cxx:348-363 | the bounds array holds the caller's bounds (missing entries −1) or [0, dims[i]] per axis |
| GenericHdf5.FillStrides | tomviz/GenericHDF5Format.cxx:349-376 | the strides array holds the caller's strides clamped up to 1, or all 1 |
| GenericHdf5.CheckBounds | tomviz/GenericHDF5Format.cxx:435-448 | the in-place final check resets an out-of-range upper bound to dims[i] and then a bad lower bound to 0 |
| GenericHdf5.ComputeCounts | tomviz/GenericHDF5Format.cxx:455-460 | counts[i] = (upper − lower) / stride[i] |
| GenericHdf5.ReadVolumeSteps | tomviz/GenericHDF5Format.cxx:328-479 | the array-filling steps, including the failed-read exit, compute the ReadVolume result |
| GenericHdf5.Only3DKeepsExactly3D | tomviz/GenericHDF5Format.cxx:490-499 | the kept datasets are exactly the 3-D ones, in their original order |
| GenericHdf5.Remove2D | tomviz/GenericHDF5Format.cxx:490-499 | the in-place erase loop leaves exactly the 3-D datasets |
| GenericHdf5.PlanRead | tomviz/GenericHDF5Format.cxx:501-516 | each iff: no 3-D dataset means failure, exactly one is read directly by its path, and two or more go to the selection dialog, which lists every 3-D path in order |
| GenericHdf5.ReadAngles | tomviz/GenericHDF5Format.cxx:146-183 | angles are empty unless the path is a 1-D dataset that reads successfully, and then they are what was read |
| GenericHdf5.AnglesPath | tomviz/GenericHDF5Format.cxx:605-614 | tilt angles are looked for at "angle", then at "angles"; none when neither dataset exists |
| Volumes.MultiOnValid | tomviz/modules/VolumeManager.cxx:148-178 | multiVolumeOn keeps the bookkeeping valid and only appends signals |
| Volumes.MultiOffValid | tomviz/modules/VolumeManager.cxx:180-209 | multiVolumeOff keeps the bookkeeping valid and only appends signals |
| Volumes.AddedValid | tomviz/modules/VolumeManager.cxx:67-113 | onModuleAdded keeps the bookkeeping valid (ports distinct, at least 1, below the next port) and only appends signals |
| Volumes.AddedPorts | tomviz/modules/VolumeManager.cxx:75-103 | the added volume gets the view's next port (1 for a new view), other volumes keep theirs, the counter moves up by one and the count grows by one |
| Volumes.AddedSwitchesOn | tomviz/modules/VolumeManager.cxx:104-109 | after an add, the view uses the multi-volume iff it already did or it now has at least MULTI_VOLUME_SWITCH volumes and allows it |
| Volumes.RemovedUnknownView | tomviz/modules/VolumeManager.cxx:121-123 | a removal on an unknown view changes nothing and emits nothing |
| Volumes.RemovedValid | tomviz/modules/VolumeManager.cxx:115-146 | onModuleRemoved keeps the bookkeeping valid and only appends signals |
| Volumes.RemovedErasesPort | tomviz/modules/VolumeManager.cxx:129-142 | on a known view the module's port entry is erased, other ports are kept, and the multi-volume is off when fewer than MULTI_VOLUME_SWITCH remain, else unchanged |
| Volumes.AllowMultiValid | tomviz/modules/VolumeManager.cxx:211-235 | allowMultiVolume(bool, view) keeps the bookkeeping valid and only appends signals |
| Volumes.AllowMultiOutcome | tomviz/modules/VolumeManager.cxx:211-235 | a no-op on an unknown view; allowing turns the multi-volume on with at least MULTI_VOLUME_SWITCH volumes, disallowing turns it off, and the allow flag ends equal to the argument |
| Volumes.AllowMultiQueryAfterSet | tomviz/modules/VolumeManager.cxx:211-244 | the query reports the using flag: false after disallowing, true after allowing with enough volumes |
| Volumes.QueriesOnUnknownView | tomviz/modules/VolumeManager.cxx:237-253 | on an unknown view the allow query answers true and the volume count is 0 |
| Volumes.VisibilityOnlyInMultiMode | tomviz/modules/VolumeManager.cxx:255-289 | a visibility change attaches or detaches the volume's port only for a registered volume of a view using the multi-volume |
| Volumes.StepValid | tomviz/modules/VolumeManager.cxx:67-289 | every event keeps the bookkeeping valid and only appends signals |
| Volumes.AddedSignals | tomviz/modules/VolumeManager.cxx:104-111 | an add emits the using-flag change (if any) and then volumeCountChanged with the new count |
| Volumes.RemovedSignals | tomviz/modules/VolumeManager.cxx:140-144 | a remove emits the using-flag change (if any) and then volumeCountChanged with the new count |
| Volumes.AllowSignals | tomviz/modules/VolumeManager.cxx:218-234 | allowMultiVolume emits the using-flag change (if any) and allowMultiVolumeChanged only when the allow flag changes |
| Volumes.SignalsOnlyOnChange | tomviz/modules/VolumeManager.cxx:174-177 | usingMultiVolumeChanged fires only on an actual change of the flag and carries the new value; allowMultiVolumeChanged fires only when the allow flag changes |
| Volumes.VolumeManager.constructor | tomviz/modules/VolumeManager.cxx:61-65 | the manager starts with no views and no signals |
| Volumes.VolumeManager.MultiVolumeOn | tomviz/modules/VolumeManager.cxx:148-178 | the loop over the view's ports gives exactly MultiOn: visible volumes attached, flag set, signal only on a change |
| Volumes.VolumeManager.MultiVolumeOff | tomviz/modules/VolumeManager.cxx:180-209 | the loop over the view's ports gives exactly MultiOff: every volume detached, flag cleared, signal only on a change |
| Volumes.VolumeManager.OnModuleAdded | tomviz/modules/VolumeManager.cxx:67-113 | the new state is Added of the old one |
| Volumes.VolumeManager.OnModuleRemoved | tomviz/modules/VolumeManager.cxx:115-146 | the new state is Removed of the old one |
| Volumes.VolumeManager.SetAllowMultiVolume | tomviz/modules/VolumeManager.cxx:211-235 | the new state is AllowMulti of the old one |
| Volumes.VolumeManager.AllowMultiVolume | tomviz/modules/VolumeManager.cxx:237-244 | answers the allow query on the current state |
| Volumes.VolumeManager.Count | tomviz/modules/VolumeManager.cxx:246-253 | answers the number of registered volumes of the view (0 when unknown) |
| Volumes.VolumeManager.OnVisibilityChanged | tomviz/modules/VolumeManager.cxx:255-289 | the new state is VisibilityChanged of the old one |
| RecentFiles.TruncatedKeepsHead | tomviz/RecentFilesMenu.cxx:64-81 | pruning keeps at most MAX_ITEMS = 10 entries, drops only trailing ones, and leaves a short list alone |
| RecentFiles.LoadNotAnObject | tomviz/RecentFilesMenu.cxx:36-46 | a stored value that is not a JSON object loads as an empty object, which saves as three empty lists |
| RecentFiles.DropMembers | tomviz/RecentFilesMenu.cxx:116-122 | the duplicate-removal loop keeps exactly the entries with another key and adds none |
| RecentFiles.PushStateFileFront | tomviz/RecentFilesMenu.cxx:147-162 | after pushStateFile(f), f is first and occurs once, the rest are the other entries in their old order pruned to fit, the list holds min(1 + others, 10) entries, and the reader and molecule lists are only pruned |
| RecentFiles.PushReaderWithoutFiles | tomviz/RecentFilesMenu.cxx:109-112 | pushDataReader with no file names leaves the stored value alone |
| RecentFiles.PushReaderFront | tomviz/RecentFilesMenu.cxx:102-126 | the new reader entry is first, no other entry shares its first file name, the others keep their order, the list holds min(1 + others, 10) entries, and the state and molecule lists are only pruned |
| RecentFiles.PushMoleculeFront | tomviz/RecentFilesMenu.cxx:128-145 | pushMoleculeReader puts the new entry first, once; the others follow in their old order without the same file name, the list holds min(1 + others, 10) entries, and the reader and state lists are only pruned |
| RecentFiles.ReaderRemovedAt | tomviz/RecentFilesMenu.cxx:261-268 | removing the reader at a valid action index takes out exactly that entry |
| RecentFiles.StateTriggeredKeepsEntry | tomviz/RecentFilesMenu.cxx:318-328 | as written, a triggered missing state file stays in the saved list (the removal is made on a copy) |
| RecentFiles.StateTriggeredRemovesEntry | tomviz/RecentFilesMenu.cxx:318-328 | as intended, the triggered state file is no longer in the saved list and every remaining entry was there before |
| RecentFiles.RecentFilesMenu.constructor | tomviz/RecentFilesMenu.cxx:95-98 | the menu starts over the given stored settings with nothing loaded |
| RecentFiles.RecentFilesMenu.Prune | tomviz/RecentFilesMenu.cxx:64-69 | the removeLast loop yields the truncated list |
| RecentFiles.RecentFilesMenu.RemoveMatching | tomviz/RecentFilesMenu.cxx:154-158 | the backwards removeAt loop yields exactly the entries with another key, in order |
| RecentFiles.RecentFilesMenu.SaveSettings | tomviz/RecentFilesMenu.cxx:49-91 | the stored value becomes the object with its three lists taken as arrays and pruned |
| RecentFiles.RecentFilesMenu.PushDataReader | tomviz/RecentFilesMenu.cxx:102-126 | the stored value becomes PushedReader of the old one |
| RecentFiles.RecentFilesMenu.PushMoleculeReader | tomviz/RecentFilesMenu.cxx:128-145 | the stored value becomes PushedMolecule of the old one |
| RecentFiles.RecentFilesMenu.PushStateFile | tomviz/RecentFilesMenu.cxx:147-162 | the stored value becomes PushedState of the old one |
| RecentFiles.RecentFilesMenu.DataSourceTriggered | tomviz/RecentFilesMenu.cxx:248-272 | with every file present the files are loaded and nothing is stored; otherwise the reader entry at the action's index is removed and nothing is loaded |
| RecentFiles.RecentFilesMenu.MoleculeSourceTriggered | tomviz/RecentFilesMenu.cxx:274-295 | a present file is loaded; a missing one has its molecule entry removed at the action's index |
| RecentFiles.RecentFilesMenu.StateTriggeredAsWritten | tomviz/RecentFilesMenu.cxx:297-329 | a state that loads is pushed to the front of the saved list, as loadState does on success (tomviz/SaveLoadStateReaction.cxx:117-118); otherwise the settings are saved back as loaded, without the removal |
| RecentFiles.RecentFilesMenu.StateTriggered | tomviz/RecentFilesMenu.cxx:297-329 | a state that loads is pushed to the front of the saved list; corrected: a state file that is missing or fails to load is removed from the saved list |
| ColorMaps.LoadedFromFile | tomviz/ColorMap.cxx:195-206 | loadFromFile makes one preset per file entry |
| ColorMaps.LoadedFromFileFlags | tomviz/ColorMap.cxx:196-206 | a loaded preset keeps the entry's name and points, is flagged default exactly when named "Plasma", and takes "Diverging" when the entry has no colour space |
| ColorMaps.LastDefaultSpec | tomviz/ColorMap.cxx:29-35 | the default name is that of a flagged preset with no flagged preset after it, and there is none when no preset is flagged |
| ColorMaps.FirstNamedSpec | tomviz/ColorMap.cxx:166-174 | the lookup finds the earliest preset with the name, and finds none exactly when no preset has it |
| ColorMaps.RenameSpec | tomviz/ColorMap.cxx:52-68 | presetName is "Error" outside [0, count); setPresetName changes only the name of preset i and is a no-op out of range |
| ColorMaps.DeleteSpec | tomviz/ColorMap.cxx:84-92 | a valid delete removes exactly that element and keeps the others in order; an invalid one changes nothing |
| ColorMaps.ColorMap.constructor | tomviz/ColorMap.cxx:21-37 | a stored preset array is taken as is with the default name of its last flagged preset; otherwise the file is loaded and the default name stays empty |
| ColorMaps.ColorMap.LoadFromFile | tomviz/ColorMap.cxx:177-207 | appends one preset per file entry |
| ColorMaps.ColorMap.DefaultPresetName | tomviz/ColorMap.cxx:47-50 | returns the default name |
| ColorMaps.ColorMap.PresetName | tomviz/ColorMap.cxx:52-59 | the name at the index, or "Error" |
| ColorMaps.ColorMap.SetPresetName | tomviz/ColorMap.cxx:61-68 | the presets become Renamed of the old ones |
| ColorMaps.ColorMap.ResetToDefaults | tomviz/ColorMap.cxx:70-76 | the list is emptied and then holds exactly the file's presets |
| ColorMaps.ColorMap.AddPreset | tomviz/ColorMap.cxx:78-82 | appends at the end and returns the new count |
| ColorMaps.ColorMap.DeletePreset | tomviz/ColorMap.cxx:84-92 | answers true iff the index is in range, and the presets become Deleted of the old ones |
| ColorMaps.ColorMap.Count | tomviz/ColorMap.cxx:94-97 | the number of presets |
| ColorMaps.ColorMap.Save | tomviz/ColorMap.cxx:124-129 | the stored array becomes the current presets |
| ColorMaps.ColorMap.ApplyPresetAt | tomviz/ColorMap.cxx:136-158 | a preset is applied iff there is a proxy and the index is in range, and it is the preset at that index |
| ColorMaps.ColorMap.ApplyPresetNamed | tomviz/ColorMap.cxx:160-175 | applies the first preset with the name, and nothing without a proxy or a match |
| ColorMaps.ColorMap.ApplyDefaultPreset | tomviz/ColorMap.cxx:131-134 | applies the preset named by the default name |
| ColorMaps.FirstRunHasNoDefaultName | tomviz/ColorMap.cxx:21-37 | on a first run (file-loaded presets) the default name is empty, so applying the default applies nothing |
| Presets.ClampedRowInRange | tomviz/PresetModel.cxx:115-139 | after a delete or reset the selected row is below the count: kept when in range, else count − 1 |
| Presets.AcceptsEditSpec | tomviz/PresetModel.cxx:51-68 | setData rejects non-Edit roles, invalid indexes and empty or blank (every character QChar::isSpace) names, and accepts an edit whose name starts with a non-space |
| Presets.PresetModel.constructor | tomviz/PresetModel.cxx:11-13 | the model starts at row 0 over the colour maps |
| Presets.PresetModel.RowCount | tomviz/PresetModel.cxx:15-18 | 0 for a valid parent, else the preset count |
| Presets.PresetModel.ColumnCount | tomviz/PresetModel.cxx:20-23 | always 1 |
| Presets.PresetModel.SetData | tomviz/PresetModel.cxx:51-68 | an accepted edit renames the preset at the row and saves; a rejected one changes nothing |
| Presets.PresetModel.SetRow | tomviz/PresetModel.cxx:87-90 | the selected row becomes the index's row |
| Presets.PresetModel.UpdateRow | tomviz/PresetModel.cxx:92-95 | selects the last preset |
| Presets.PresetModel.PresetName | tomviz/PresetModel.cxx:97-100 | the name of the selected preset |
| Presets.PresetModel.AddNewPreset | tomviz/PresetModel.cxx:108-113 | appends the preset, selects it (row = count − 1) and saves |
| Presets.PresetModel.ResetToDefaults | tomviz/PresetModel.cxx:115-124 | reloads the file's presets, clamps the selected row and saves |
| Presets.PresetModel.DeletePreset | tomviz/PresetModel.cxx:131-139 | removes the preset at the index's row, clamps the selected row and saves |
| BasicFormat.DefaultParamsWellFormed | tomviz/acquisition/BasicFormatWidget.cxx:332-370 | every default parameter list has exactly five entries with two distinct non-blank signs; PlusMinus uses "-"/"+", and Custom has extension "*" |
| BasicFormat.OrdersCoverEnums | tomviz/acquisition/BasicFormatWidget.cxx:372-385 | the format and extension orders list every enum value |
| BasicFormat.DefaultFileNames | tomviz/acquisition/BasicFormatWidget.cxx:279-308 | the Custom default names are empty, and the named examples are "Prefix_n12.3_Suffix.tiff" and "Prefix_+12.3_Suffix.dm3" |
| BasicFormat.SignOrDefault | tomviz/acquisition/BasicFormatWidget.cxx:126-131 | a blank sign character (nothing but QChar::isSpace whitespace) is replaced by its default and any other is kept, so the result is never blank |
| BasicFormat.BuiltSigns | tomviz/acquisition/BasicFormatWidget.cxx:126-147 | the stored sign characters are never blank (QChar::isSpace): a blank one becomes "n" or "p", any other is kept |
| BasicFormat.BuiltWildcardsRoundTrip | tomviz/acquisition/BasicFormatWidget.cxx:109-121 | a blank prefix or suffix (QString::trimmed is empty) becomes "*", and every "*" written as ".*" (Qt) or ".*?" (Python) reads back to the field |
| BasicFormat.TemplateLazy | tomviz/acquisition/BasicFormatWidget.cxx:133-145 | making the template lazy makes exactly its prefix and suffix lazy |
| BasicFormat.PythonIsLazyQt | tomviz/acquisition/BasicFormatWidget.cxx:133-145 | the Python pattern is the Qt pattern with every ".*" made lazy: the two differ only in prefix and suffix |
| BasicFormat.FieldsNonEmpty | tomviz/acquisition/BasicFormatWidget.cxx:109-131 | every field put into the template is non-empty; the extension is ".+" or the one given |
| BasicFormat.MatchFileNameSpec | tomviz/acquisition/BasicFormatWidget.cxx:163-220 | the groups are always Prefix, Angle, Suffix, Ext; a failed match leaves them empty; a match with the positive or negative character signs the angle "+" or "-"; a missing sign is valid only for angle 0 |
| BasicFormat.SubstitutionsSpec | tomviz/acquisition/BasicFormatWidget.cxx:237-249 | under the single key "angle", the escaped positive character maps to "+" and then the escaped negative one to "-" |
| BasicFormat.ChainedWithoutMarkers | tomviz/acquisition/BasicFormatWidget.cxx:133-145 | when no field but the extension holds a place marker, the five chained arg calls give the single-pass template |
| BasicFormat.AsWrittenAgreesWithoutPercent | tomviz/acquisition/BasicFormatWidget.cxx:102-151 | when the prefix, suffix and sign characters hold no '%', buildFileRegex as written stores the same patterns as the single-pass fill |
| BasicFormat.ChainedFillsPrefixMarker | tomviz/acquisition/BasicFormatWidget.cxx:133-145 | for a prefix ending in "%2", the chained calls put the negative sign into the prefix as well as into its slot |
| BasicFormat.AsWrittenFillsPrefixMarker | tomviz/acquisition/BasicFormatWidget.cxx:102-151 | for any prefix a + "%2" with no '%' or '*' in a, and signs and suffix without '%', buildFileRegex as written builds the Qt pattern whose prefix is a followed by the escaped negative sign, and that pattern differs from the one a single pass would build |
| BasicFormat.BasicFormatWidget.constructor | tomviz/acquisition/BasicFormatWidget.cxx:17-38 | filling the combo boxes selects NegativePositive and dm3, whose defaults build the regexes; the extension box is enabled and the custom box is not |
| BasicFormat.BuildRegexes | tomviz/acquisition/BasicFormatWidget.cxx:102-151 | the string steps of buildFileRegex (blank fields defaulted, `*` expanded greedily for Qt and lazily for Python) produce BuiltRegexes of the five fields, whose template is filled in a single pass (the corrected fill of the finding below) |
| BasicFormat.BasicFormatWidget.BuildFileRegex | tomviz/acquisition/BasicFormatWidget.cxx:102-151 | the Qt and Python regexes and the sign characters become BuiltRegexes of the five fields, with the single-pass fill |
| BasicFormat.BasicFormatWidget.UpdateRegex | tomviz/acquisition/BasicFormatWidget.cxx:89-100 | builds the regexes from the defaults of the current format and extension |
| BasicFormat.BasicFormatWidget.OnFormatChanged | tomviz/acquisition/BasicFormatWidget.cxx:56-77 | an index outside the format order is ignored; otherwise the format is set, Custom enables the custom fields and disables the extension box, and the regexes are rebuilt |
| BasicFormat.BasicFormatWidget.OnExtensionChanged | tomviz/acquisition/BasicFormatWidget.cxx:79-87 | an index outside the extension order is ignored; otherwise the extension is set and the regexes are rebuilt |
| BasicFormat.BasicFormatWidget.CustomFileRegex | tomviz/acquisition/BasicFormatWidget.cxx:153-161 | edited fields rebuild the regexes, unless there are not exactly five |
| BasicFormat.BasicFormatWidget.Match | tomviz/acquisition/BasicFormatWidget.cxx:163-220 | the match is MatchFileName of the captures and the stored sign characters |
| BasicFormat.BasicFormatWidget.GetRegexSubsitutions | tomviz/acquisition/BasicFormatWidget.cxx:237-249 | the substitutions of the stored sign characters |
| BasicFormat.BasicFormatWidget.GetDefaultFilename | tomviz/acquisition/BasicFormatWidget.cxx:263-266 | the default name of the current format and extension |
| BasicFormat.BasicFormatWidget.IsDefaultFilename | tomviz/acquisition/BasicFormatWidget.cxx:251-261 | true iff the name equals the default name of some format and extension |
| RegexText.ExpandCollapse | tomviz/acquisition/BasicFormatWidget.cxx:113-114 | replacing each "*" by a wildcard loses nothing: writing the wildcard back as "*" restores the field |
| RegexText.PythonRegexIsLazified | tomviz/acquisition/AdvancedFormatWidget.cxx:112-119 | the two replacements of getPythonRegex equal a one-pass reference that makes every ".*" lazy |
| RegexText.LazifiedAllLazy | tomviz/acquisition/AdvancedFormatWidget.cxx:112-119 | every ".*" of the reference's output is followed by "?" |
| RegexText.LazifiedNoDoubleMark | tomviz/acquisition/AdvancedFormatWidget.cxx:112-119 | for a pattern without "??", the reference's output has no "??" either, so it never produces ".*??" |
| RegexText.LazifiedIdempotent | tomviz/acquisition/AdvancedFormatWidget.cxx:112-119 | applying the reference twice is the same as once |
| RegexText.PythonRegexSpec | tomviz/acquisition/AdvancedFormatWidget.cxx:112-119 | getPythonRegex leaves every ".*" lazy, applied to its own output gives the same string, and adds no ".*??" to a pattern without one |
| RegexText.PythonRegexKeepsDoubleMark | tomviz/acquisition/AdvancedFormatWidget.cxx:112-119 | a pattern that already holds ".*??" keeps it |
| RegexText.EscapeRoundTrip | tomviz/acquisition/BasicFormatWidget.cxx:135-136 | unescaping an escaped sign character restores it |
| RegexText.EscapeHasNoWildcard | tomviz/acquisition/BasicFormatWidget.cxx:135-136 | an escaped string never starts with "*" and holds no ".*" |
| RegexText.LazyExpand | tomviz/acquisition/BasicFormatWidget.cxx:112-121 | the Qt expansion of a field, made lazy, is its Python expansion |
| AdvancedFormat.CollectedSpec | tomviz/acquisition/AdvancedFormatWidget.cxx:89-105 | every group with a substitution gets an entry, the keys are exactly those groups, and each group's list is non-empty |
| AdvancedFormat.RepeatedRow | tomviz/acquisition/AdvancedFormatWidget.cxx:94-103 | listing a row again appends one more mapping to its group and adds no group |
| AdvancedFormat.AdvancedFormatWidget.constructor | tomviz/acquisition/AdvancedFormatWidget.cxx:11-45 | the pattern starts as the dm3 degree pattern and the groups editor is enabled |
| AdvancedFormat.AdvancedFormatWidget.OnPatternEdited | tomviz/acquisition/AdvancedFormatWidget.cxx:20-25 | editing replaces the pattern and enables the groups editor exactly when it is not empty |
| AdvancedFormat.AdvancedFormatWidget.GetRegex | tomviz/acquisition/AdvancedFormatWidget.cxx:107-110 | the stored pattern |
| AdvancedFormat.AdvancedFormatWidget.GetPythonRegex | tomviz/acquisition/AdvancedFormatWidget.cxx:112-119 | the rewritten pattern, whose every ".*" is lazy and which the rewrite leaves unchanged |
| AdvancedFormat.MatchFileName | tomviz/acquisition/AdvancedFormatWidget.cxx:62-81 | without named groups one "Full match" group with capture 0; otherwise one group per name, group i holding capture i + 1 |
| AdvancedFormat.GetRegexSubstitutions | tomviz/acquisition/AdvancedFormatWidget.cxx:89-105 | the loop appends each row to its group's list, creating the list on first use, and yields Collected of the rows |
| AdvancedFormat.CollectStep | tomviz/acquisition/AdvancedFormatWidget.cxx:94-103 | appending a row extends its group's list by one mapping and leaves the other groups alone |
| Directions.AxisSpec | tomviz/modules/ModuleSlice.cxx:804-820 | XY→2, YZ→0, XZ→1 and Custom→−1: each orthogonal direction has its own axis in 0..2, a direction is orthogonal iff it is not Custom, and the axis gives the direction back |
| Directions.NameRoundTrip | tomviz/modules/ModuleSlice.cxx:479-481 | stringToDirection reads back the name serialize writes |
| Directions.FromNameSpec | tomviz/modules/ModuleSlice.cxx:822-833 | only "XY", "YZ" and "XZ" give an orthogonal direction, named back by the same string; every other name reads as Custom |
| Directions.FromModeSpec | tomviz/modules/ModuleSlice.cxx:835-851 | exactly the modes 5, 6 and 7 give an orthogonal direction, XY, YZ and XZ in turn |
| Directions.ClampSpec | tomviz/modules/ModuleSlice.cxx:227-231 | a value inside the slider range is kept, any other moves to the nearer end, and clamping twice changes nothing |
| Directions.UnitNormalSpec | tomviz/modules/ModuleSlice.cxx:686-689 | the normal has three components: the sign on the axis and 0 elsewhere |
| SliceModules.ModuleSlice.constructor | tomviz/modules/ModuleSlice.cxx:48-48 | a new slice module has an XY plane at slice 0 and no panel |
| SliceModules.ModuleSlice.MaxSlice | tomviz/modules/ModuleSlice.cxx:709-719 | maxSlice is −1 for a custom plane, otherwise one less than the number of slices along the axis; it is negative only when there is no slice |
| SliceModules.ModuleSlice.AddToPanel | tomviz/modules/ModuleSlice.cxx:218-233 | the slider runs from 0 to maxSlice (its own default maximum for a custom plane) and the slice is clamped into that range |
| SliceModules.ModuleSlice.OnSliceChanged | tomviz/modules/ModuleSlice.cxx:721-738 | the slice is recorded; only an orthogonal plane moves the widget and the slider |
| SliceModules.ModuleSlice.OnDirectionChanged | tomviz/modules/ModuleSlice.cxx:649-702 | a custom plane only records the direction; an orthogonal one points the normal along its axis, resets the slider to [0, maxSlice] and selects slice dims[axis]/2 |
| SliceModules.ModuleSlice.SerializedDirection | tomviz/modules/ModuleSlice.cxx:479-481 | serialize writes the direction's name, which stringToDirection reads back |
| SliceModules.PanelSliceInRange | tomviz/modules/ModuleSlice.cxx:227-231 | after the panel is built the slice lies on the slider, and a slice already in range is kept |
| SliceModules.MiddleSliceInRange | tomviz/modules/ModuleSlice.cxx:690-690 | the middle slice dims[axis]/2 is a slice of a non-empty volume |
| ClipModules.NegatedTwice | tomviz/modules/ModuleClip.cxx:656-666 | inverting the plane twice gives the original normal back |
| ClipModules.NegatedUnitNormal | tomviz/modules/ModuleClip.cxx:594-600 | inverting an axis-aligned normal gives the normal onDirectionChanged sets for the opposite InvertPlane setting |
| ClipModules.PlaneWidgetAsWrittenReadsOutside | tomviz/modules/ModuleClip.cxx:153-166 | as written, updatePlaneWidget reads dims[-1] for a custom plane, and dims[axis] − 1 for an orthogonal one |
| ClipModules.ModuleClip.constructor | tomviz/modules/ModuleClip.cxx:47-47 | a new clip module has an XY plane at position 0, not inverted, and no panel |
| ClipModules.ModuleClip.UpdatePlaneWidget | tomviz/modules/ModuleClip.cxx:153-166 | corrected: only an orthogonal plane sets the slider to [0, dims[axis] − 1]; otherwise nothing changes |
| ClipModules.ModuleClip.SetVisibility | tomviz/modules/ModuleClip.cxx:183-200 | the widget follows the flag, the other modules are told to drop the plane exactly when it is hidden, and it answers true |
| ClipModules.ModuleClip.AddToPanel | tomviz/modules/ModuleClip.cxx:285-303 | the slider runs from 0 to the last plane (its own default maximum for a custom plane) and the position is clamped into it |
| ClipModules.ModuleClip.OnPlaneChanged | tomviz/modules/ModuleClip.cxx:615-633 | the position is recorded; only an orthogonal plane moves the widget and the slider and refreshes the slider range |
| ClipModules.ModuleClip.OnDirectionChanged | tomviz/modules/ModuleClip.cxx:550-613 | the slider is shown only for an orthogonal plane; a custom plane keeps its geometry; an orthogonal one gets the unit normal along its axis, backwards on the last plane when inverted, else forwards on plane 1 |
| ClipModules.ModuleClip.OnInvertPlaneChanged | tomviz/modules/ModuleClip.cxx:656-666 | the widget's normal is negated component by component and given to the clipping plane |
| ClipModules.ModuleClip.OnInvertPlaneToggled | tomviz/modules/ModuleClip.cxx:270-275 | the InvertPlane property follows the box, the normal is negated and the slider range refreshed |
| ClipModules.ModuleClip.SerializedDirection | tomviz/modules/ModuleClip.cxx:409-411 | serialize writes the direction's name, which stringToDirection reads back |
| VolumeModules.VectorModeSpec | tomviz/modules/ModuleVolume.cxx:302-311 | multi-component data is shown as a magnitude exactly when it is not mapped as RGBA; single-component data disables the vector mode |
| VolumeModules.RenameUnchanged | tomviz/modules/ModuleVolume.cxx:241-249 | positions whose name is unchanged leave the ranges and the selected component alone |
| VolumeModules.RenameOne | tomviz/modules/ModuleVolume.cxx:241-249 | renaming one component moves its range to the new name, keeps every other range, and a selection of that component follows it |
| VolumeModules.SwapKeepsOneRange | tomviz/modules/ModuleVolume.cxx:241-249 | two components that swap names in one update keep only one range: the first take overwrites the second name's range |
| VolumeModules.ModuleVolume.constructor | tomviz/modules/ModuleVolume.cxx:109-152 | a new module maps scalars directly, combines components, and its vector mode follows the component count |
| VolumeModules.ModuleVolume.UseRgbaMapping | tomviz/modules/ModuleVolume.cxx:313-326 | the flag, forced off for good when the data does not have three components |
| VolumeModules.ModuleVolume.RgbaMappingComponent | tomviz/modules/ModuleVolume.cxx:354-362 | the selected component, reset to the first name when its name has gone |
| VolumeModules.ModuleVolume.UpdateVectorMode | tomviz/modules/ModuleVolume.cxx:302-311 | the vector mode is magnitude for multi-component data unless it is mapped as RGBA |
| VolumeModules.ModuleVolume.OnRgbaMappingToggled | tomviz/modules/ModuleVolume.cxx:204-225 | the flag is set (kept only for three components) and the vector mode follows; when RGBA mapping ends up on and components are not combined, rebuilding the RGBA data stores an unset range under every component name that had none (ModuleVolume.cxx:328-341) |
| VolumeModules.ModuleVolume.ActiveRgbaRanges | tomviz/modules/ModuleVolume.cxx:186-202 | one range per component: the combined range, or each component's own range in name order; looking up a missing name inserts an unset range for it |
| VolumeModules.ModuleVolume.OnComponentNamesModified | tomviz/modules/ModuleVolume.cxx:235-263 | each renamed position moves its range to the new name, and the selected component follows the rename |
| VolumeModules.ModuleVolume.OnRgbaMappingMinChanged | tomviz/modules/ModuleVolume.cxx:634-644 | only the minimum of the range being edited (combined, or the selected component's) changes; with separate components the rebuild of the RGBA data then stores an unset range under every component name that had none |
| VolumeModules.ModuleVolume.OnRgbaMappingMaxChanged | tomviz/modules/ModuleVolume.cxx:646-656 | only the maximum of the range being edited (combined, or the selected component's) changes; with separate components the rebuild of the RGBA data then stores an unset range under every component name that had none |
| VolumeModules.ModuleVolume.SetSolidity | tomviz/modules/ModuleVolume.cxx:748-755 | all four components get the value under RGBA mapping, otherwise only the first |
| ContourModules.ColorArrayPriority | tomviz/modules/ModuleContour.cxx:169-183 | colour by array wins, then solid colour (no array), then the contour array; with non-empty names there is no array exactly for solid colour |
| ContourModules.ContourNameSpec | tomviz/modules/ModuleContour.cxx:476-482 | a fixed index names the scalars at that index whatever the active scalars; the default follows the active scalars |
| ContourModules.RepresentationNamedSpec | tomviz/modules/ModuleContour.cxx:531-541 | "Surface", "Points" and "Wireframe" select their representation, any other name keeps the current one, and applying a name twice is the same as once |
| ContourModules.ModuleContour.constructor | tomviz/modules/ModuleContour.cxx:56-98 | after initialize the module contours the default scalars, the colour-by name is the active scalars, and updateColorMap leaves the mapper colouring by the contoured array, which is the active scalars; no panel exists yet |
| ContourModules.ModuleContour.UpdateContourArrayProducer | tomviz/modules/ModuleContour.cxx:136-141 | the contour filter takes the array contourByArrayName names |
| ContourModules.ModuleContour.UpdateColorArrayProducer | tomviz/modules/ModuleContour.cxx:143-153 | the colour producer is cleared unless colouring by array, and then passes the chosen colour array |
| ContourModules.ModuleContour.UpdateColorArray | tomviz/modules/ModuleContour.cxx:160-183 | the mapper colours by ColorArray of the current choices |
| ContourModules.ModuleContour.OnUseSolidColorToggled | tomviz/modules/ModuleContour.cxx:556-561 | records the choice and recolours |
| ContourModules.ModuleContour.OnColorByArrayToggled | tomviz/modules/ModuleContour.cxx:573-587 | records the choice, updates the colour producer and recolours |
| ContourModules.ModuleContour.OnColorByArrayNameChanged | tomviz/modules/ModuleContour.cxx:589-595 | records the name, updates the colour producer and recolours |
| ContourModules.ModuleContour.OnActiveScalarsChanged | tomviz/modules/ModuleContour.cxx:123-134 | a module contouring a fixed index ignores the new active scalars; the default one contours and colours by them |
| ContourModules.ModuleContour.UpdateColorByArrayOptions | tomviz/modules/ModuleContour.cxx:307-320 | without a panel nothing changes; otherwise the options list the data's scalars and a colour array no longer among them is replaced by the active scalars |
| ContourModules.ModuleContour.OnRepresentationChanged | tomviz/modules/ModuleContour.cxx:531-541 | the representation becomes RepresentationNamed of the name |
| QStringArg.NoMarkerUnchanged | tomviz/acquisition/BasicFormatWidget.cxx:133-145 | QString::arg leaves a string without place markers unchanged |
| QStringArg.ScanSeam | tomviz/acquisition/BasicFormatWidget.cxx:133-145 | when no marker runs across the join, the lowest marker of x + y is the lower of the two, and replacing a marker in x + y replaces it in each part |
| Interaction.ChangeSpec | tomviz/ActiveObjects.h:223-251 | a setter emits at most one signal, none exactly when the flag already has the value, so repeating a call is silent |
| Interaction.ActiveObjects.constructor | tomviz/ActiveObjects.h:212-217 | translation, rotation and scaling start disabled and no data source is fixed for interaction |
| Interaction.ActiveObjects.EnableTranslation | tomviz/ActiveObjects.h:223-231 | the flag takes the value, and the signals gain Change of the old flag and the value, so translationStateChanged is emitted only when it changed; the other flags stay |
| Interaction.ActiveObjects.EnableRotation | tomviz/ActiveObjects.h:233-241 | the flag takes the value, and the signals gain Change of the old flag and the value, so rotationStateChanged is emitted only when it changed; the other flags stay |
| Interaction.ActiveObjects.EnableScaling | tomviz/ActiveObjects.h:243-251 | the flag takes the value, and the signals gain Change of the old flag and the value, so scalingStateChanged is emitted only when it changed; the other flags stay |
| Interaction.ActiveObjects.SetFixedInteractionDataSource | tomviz/ActiveObjects.h:128-137 | the data source is stored and announced on every call, unchanged or not; the flags stay |
| Interaction.ActiveObjects.InteractionFlags | tomviz/ActiveObjects.h:124-126 | the three getters return the flags as last stored |
| TiltSeries.DimSpec | tomviz/TomographyTiltSeries.cxx:52-54 | an axis has a sample exactly when its upper extent is not below its lower one, and none exactly when it is one below |
| TiltSeries.ImageIndex | tomviz/TomographyTiltSeries.cxx:153 | pixel (x, y) of an image lies inside the image |
| TiltSeries.FlatIndex | tomviz/TomographyTiltSeries.cxx:66-67 | voxel (slice, ray, tilt) lies inside the series buffer |
| TiltSeries.GetSinogram | tomviz/TomographyTiltSeries.cxx:48-70 | entry t * yDim + r of the sinogram is ray r of tilt t in the chosen slice, and the rest of the output buffer is left alone |
| TiltSeries.GatherTilt | tomviz/TomographyTiltSeries.cxx:64-68 | row t of the sinogram takes the slice of tilt t, and nothing else changes |
| TiltSeries.FracSpec | tomviz/TomographyTiltSeries.cxx:109 | the fractional part of a ray coordinate lies in [0, 1) and is 0 exactly on a whole coordinate |
| TiltSeries.SampleIndexInRange | tomviz/TomographyTiltSeries.cxx:114-127 | a sample on the tilt axis, for either tilt axis, lies inside the series buffer |
| TiltSeries.RayValueSpec | tomviz/TomographyTiltSeries.cxx:105-129 | the two interpolation weights sum to one, and a ray on a whole coordinate takes exactly the sample there |
| TiltSeries.AsWrittenShiftsRays | tomviz/TomographyTiltSeries.cxx:105-129 | on a two-sample axis with two rays, the source's weights give the second sample for the first ray and nothing for the second, where interpolation gives the two samples |
| TiltSeries.GetSinogramResampled | tomviz/TomographyTiltSeries.cxx:73-132 | entry (t, r) of the sinogram is ray r of tilt t, the interpolation of the two samples around the ray's coordinate with samples off the axis counting as zero; the rest of the buffer is left alone |
| TiltSeries.ResampleTilt | tomviz/TomographyTiltSeries.cxx:103-130 | the first tilt fills the ray table, and row t takes the resampled rays of tilt t; nothing else changes |
| TiltSeries.StoreRay | tomviz/TomographyTiltSeries.cxx:112-129 | entry (t, r) takes the interpolated ray, and no other entry changes |
| TiltSeries.SetRay | tomviz/TomographyTiltSeries.cxx:105-111 | entry r of the table holds the sample below the ray, the one above and their weights; other entries stay |
| TiltSeries.InterpolateRay | tomviz/TomographyTiltSeries.cxx:112-129 | the value is the sum of each on-axis sample times its weight |
| TiltSeries.TiltSumConstant | tomviz/TomographyTiltSeries.cxx:147-153 | over a series whose every value is c, the first k tilts of a pixel sum to k * c |
| TiltSeries.AverageOfConstant | tomviz/TomographyTiltSeries.cxx:134-160 | the average of a series whose every value is c is c |
| TiltSeries.AverageTiltSeries | tomviz/TomographyTiltSeries.cxx:134-160 | each pixel of the average image is the mean of that pixel over the tilts; an empty series and every entry past the image leave the buffer alone |
| TiltSeries.AddTilt | tomviz/TomographyTiltSeries.cxx:148-158 | tilt k is added to every pixel of the average, and nothing past the image changes |
| TiltSeries.AddTiltRow | tomviz/TomographyTiltSeries.cxx:149-157 | tilt k is added to each pixel of row y, divided by the tilt count after the last tilt; other entries stay |
| TiltSeries.AddPixel | tomviz/TomographyTiltSeries.cxx:150-156 | pixel (x, y) takes the running sum up to tilt k, and no other entry changes |
| Crop.Decoded | tomviz/operators/CropOperator.cxx:114-125 | deserialize always leaves six bounds |
| Crop.SerializeRoundTrip | tomviz/operators/CropOperator.cxx:103-125 | serialize then deserialize gives back the bounds, whatever the operator held before and whatever else the object holds |
| Crop.DeserializeKeeps | tomviz/operators/CropOperator.cxx:116-123 | a missing "bounds" key, or one that is not an array of six, leaves the bounds alone |
| Crop.CropOperator.constructor | tomviz/operators/CropOperator.cxx:72-78 | every bound starts at the smallest int, meaning the whole volume is kept |
| Crop.CropOperator.SetCropBounds | tomviz/operators/CropOperator.cxx:127-133 | all six values are copied and transformModified is emitted once |
| Crop.CropOperator.Clone | tomviz/operators/CropOperator.cxx:96-101 | a new operator holding the same bounds |
| Crop.CropOperator.Serialize | tomviz/operators/CropOperator.cxx:103-112 | the base description with "bounds" set to the six bounds in order |
| Crop.CropOperator.Deserialize | tomviz/operators/CropOperator.cxx:114-125 | a six-element "bounds" array is loaded, anything else keeps the bounds, and the call always succeeds |
| Crop.CropOperator.OpenEditor | tomviz/operators/CropOperator.cxx:27-46 | unset bounds (judged by the first) are replaced by the image extent, with one transformModified; set bounds stay |
| ArrayWrangler.StridedIndex | tomviz/operators/ArrayWranglerOperator.cxx:129-134 | component c of tuple i lies inside the array |
| ArrayWrangler.Component | tomviz/operators/ArrayWranglerOperator.cxx:129-134 | the kept component has one value per tuple |
| ArrayWrangler.Guard | tomviz/operators/ArrayWranglerOperator.cxx:182-190 | the corrected guard passes exactly a component index in [0, components), and whatever it passes the source's guard passes too |
| ArrayWrangler.NegativeComponentPassesGuard | tomviz/operators/ArrayWranglerOperator.cxx:182-190 | a negative component passes the source's guard, which only checks the upper end, and its first read lands before the start of the array |
| ArrayWrangler.ExtractComponent | tomviz/operators/ArrayWranglerOperator.cxx:127-134 | element i of the result is component c of tuple i |
| ArrayWrangler.Converted | tomviz/operators/ArrayWranglerOperator.cxx:137-159 | the new scalars have one component, the same tuples and name, and value i is component c of tuple i in the new element type |
| ArrayWrangler.Decoded | tomviz/operators/ArrayWranglerOperator.cxx:218-227 | each key absent from the object keeps its field |
| ArrayWrangler.SerializeRoundTrip | tomviz/operators/ArrayWranglerOperator.cxx:208-227 | serialize then deserialize gives back both parameters, whatever the operator held before |
| ArrayWrangler.ArrayWranglerOperator.constructor | tomviz/operators/ArrayWranglerOperator.cxx:164-166 | the operator holds the given defaults |
| ArrayWrangler.ArrayWranglerOperator.ApplyTransform | tomviz/operators/ArrayWranglerOperator.cxx:173-206 | succeeds exactly for image data with a component inside the array and a known output type, and then the scalars become the kept component; on failure the data is unchanged |
| ArrayWrangler.ArrayWranglerOperator.Serialize | tomviz/operators/ArrayWranglerOperator.cxx:208-216 | the base description with both parameters added |
| ArrayWrangler.ArrayWranglerOperator.Deserialize | tomviz/operators/ArrayWranglerOperator.cxx:218-227 | each parameter present is loaded and the call always succeeds |
| ArrayWrangler.ArrayWranglerOperator.Clone | tomviz/operators/ArrayWranglerOperator.cxx:229-235 | a new operator with the same output type and component |
| ArrayWrangler.ArrayWranglerOperator.ApplyEditor | tomviz/operators/ArrayWranglerOperator.cxx:51-88 | the output type is the combo index, and the component is the chosen one when the image has more than one component, else 0, so it lies inside the array |
| PyXrfLog.HeaderIndicesSpec | tomviz/PyXRFProcessDialog.cxx:238-241 | every header name is a key, mapped to the position of its last occurrence, and nothing else is a key |
| PyXrfLog.HeaderIndicesInjective | tomviz/PyXRFProcessDialog.cxx:238-241 | no two names share a position in the column map |
| PyXrfLog.DistinctHeaderIndices | tomviz/PyXRFProcessDialog.cxx:238-241 | with distinct names the map has one key per column and sends each name to its own position |
| PyXrfLog.HeaderUnique | tomviz/PyXRFProcessDialog.cxx:264-274 | for a map read from distinct non-empty names, the only header row the write loop can rebuild is the header read |
| PyXrfLog.Lines | tomviz/PyXRFProcessDialog.cxx:279-284 | each row becomes its cells joined by commas |
| PyXrfLog.ReadRows | tomviz/PyXRFProcessDialog.cxx:243-246 | every line after the first, split at commas, in order |
| PyXrfLog.LinesOfReadRows | tomviz/PyXRFProcessDialog.cxx:243-246 | joining the rows back gives the lines they were split from |
| PyXrfLog.ReadThenWrite | tomviz/PyXRFProcessDialog.cxx:217-285 | reading a file with distinct non-empty header names and at least one row, then writing it, reproduces the file when it does not end in a newline (readLine drops a final terminator, and the writer adds none after the last row) |
| PyXrfLog.HeaderOnlyGainsNewline | tomviz/PyXRFProcessDialog.cxx:276-284 | a file holding only a header gains a trailing newline when written back |
| PyXrfLog.UseRoundTrip | tomviz/PyXRFProcessDialog.cxx:194-201 | the value written on a toggle ("x" or "0") shows the checkbox as toggled |
| PyXrfLog.LogFileTable.constructor | tomviz/PyXRFProcessDialog.cxx:42-57 | the table and the column map start empty |
| PyXrfLog.LogFileTable.ReadLogFile | tomviz/PyXRFProcessDialog.cxx:217-247 | both tables are cleared; a missing or unreadable file leaves them empty, otherwise the header gives the column map and each later line a row |
| PyXrfLog.LogFileTable.LogFileValue | tomviz/PyXRFProcessDialog.cxx:287-312 | the cell when the table is non-empty, the column is known and the row and column are in range; a non-empty result only then |
| PyXrfLog.LogFileTable.SetLogFileValue | tomviz/PyXRFProcessDialog.cxx:314-334 | exactly the one cell changes when it exists, and nothing changes otherwise |
| PyXrfLog.LogFileTable.OnUseToggled | tomviz/PyXRFProcessDialog.cxx:194-201 | a toggle writes exactly "x" (checked) or "0" (unchecked) into the row's "Use" cell and changes no other cell, so the cell reads back as the new state; a row without one is unchanged |
| PyXrfLog.LogFileTable.WriteLogFile | tomviz/PyXRFProcessDialog.cxx:249-285 | nothing is written for a missing or unopenable file; a column map with a position lacking a name leaves the file empty; otherwise the header row and the rows are written |
| PyXrfLog.LogFileTable.HeaderRow | tomviz/PyXRFProcessDialog.cxx:264-274 | the header is built exactly when every position has a non-empty name, and then it lists those names in position order |
| PyXrfLog.LogFileTable.RowsText | tomviz/PyXRFProcessDialog.cxx:279-284 | the rows joined by commas with a newline between rows and none after the last |
| Text.Split | tomviz/PyXRFProcessDialog.cxx:238 | QString::split keeps empty pieces and yields at least one piece, none holding the separator |
| Text.JoinSplit | tomviz/PyXRFProcessDialog.cxx:238-280 | joining the pieces of a split back together gives the original line |
| Text.SplitJoin | tomviz/PyXRFProcessDialog.cxx:238-280 | splitting a join of separator-free pieces gives the pieces back |
| AnimationHelper.CandidateInjective | tomviz/AnimationHelperDialog.cxx:252-256 | different attempts give different labels ("label", "label 2", "label 3", ...) |
| AnimationHelper.FreeLabel | tomviz/AnimationHelperDialog.cxx:252-256 | the label loop ends on the first candidate not taken, and every earlier candidate was taken |
| AnimationHelper.AllowedMembers | tomviz/AnimationHelperDialog.cxx:245-249 | the filter keeps exactly the data source's modules whose type has a tab |
| AnimationHelper.FirstFreeUnique | tomviz/AnimationHelperDialog.cxx:251-256 | for a module and the labels already used there is only one first free candidate |
| AnimationHelper.NumberedFits | tomviz/AnimationHelperDialog.cxx:245-259 | the loop's labels are distinct, each a candidate of its module's type, and a type's first module keeps the plain name |
| AnimationHelper.NumberedUnique | tomviz/AnimationHelperDialog.cxx:245-259 | the list of modules decides the labels: two numberings of the same list are equal |
| AnimationHelper.RepeatNumbered | tomviz/AnimationHelperDialog.cxx:251-256 | two modules of one type are labelled "name" and "name 2" |
| AnimationHelper.AppendNumbered | tomviz/AnimationHelperDialog.cxx:248-257 | one step of the labelling loop gives the new module the first candidate no earlier module uses |
| AnimationHelper.ModuleLabels | tomviz/AnimationHelperDialog.cxx:245-259 | the kept modules are the data source's modules of an allowed type, in their order, and each gets the first of "name", "name 2", "name 3", ... that no earlier module uses |
| AnimationHelper.Reselected | tomviz/AnimationHelperDialog.cxx:261-278 | a rebuilt list selects the previous item when still listed, else its first item, else nothing |
| AnimationHelper.LastIndexOf | tomviz/AnimationHelperDialog.cxx:198-209 | the rebuilding loop keeps the last position of the previous item, not the first |
| AnimationHelper.WithoutModuleMembers | tomviz/AnimationHelperDialog.cxx:351-359 | what is left is exactly the animations of the other modules: every animation of the module is dropped, every other one kept |
| AnimationHelper.WithoutModuleKeepsOnePerModule | tomviz/AnimationHelperDialog.cxx:351-359 | dropping one module's animations keeps at most one animation per module |
| AnimationHelper.RemoveModuleAnimations | tomviz/AnimationHelperDialog.cxx:351-359 | the removal loop, which revisits index i after a removal, leaves WithoutModule of the list |
| AnimationHelper.AnimationHelperDialog.constructor | tomviz/AnimationHelperDialog.cxx:37-111 | updateGui runs at construction: the time-series box mirrors the active objects, the data sources are listed with the first selected, its allowed modules are listed in order and numbered as ModuleLabels says, the first of them selected, and every button's enable state follows the scene |
| AnimationHelper.AnimationHelperDialog.UpdateEnableStates | tomviz/AnimationHelperDialog.cxx:113-149 | each control is enabled exactly when its condition holds; "clear all" exactly when there is a camera cue, an enabled time series or a module animation |
| AnimationHelper.AnimationHelperDialog.UpdateModuleOptions | tomviz/AnimationHelperDialog.cxx:230-281 | with no data source the list stays empty; otherwise it lists the allowed modules in order, numbered as ModuleLabels says, and keeps the previous module selected if still listed, else the first |
| AnimationHelper.AnimationHelperDialog.UpdateDataSourceOptions | tomviz/AnimationHelperDialog.cxx:186-218 | the list is rebuilt from the data sources and their labels; the previous data source stays selected if still listed, and then the module list is untouched; otherwise the first data source's allowed modules are listed in order, numbered as ModuleLabels says, with the previous module reselected; the animations and the time-series box are kept, and the enable states follow the scene |
| AnimationHelper.AnimationHelperDialog.AddModuleAnimation | tomviz/AnimationHelperDialog.cxx:344-377 | with a module selected its old animations are removed and, for a contour module, one new animation is appended, so a module keeps at most one |
| AnimationHelper.AnimationHelperDialog.ClearModuleAnimations | tomviz/AnimationHelperDialog.cxx:379-388 | the list is emptied and "clear all" then depends only on the camera and the time series |
| SelectItems.CountSet | tomviz/SelectItemsDialog.cxx:59-63 | no more flags are set than there are flags |
| SelectItems.ChosenSpec | tomviz/SelectItemsDialog.cxx:56-65 | one item per checked box, and x is chosen exactly when some checked item is x |
| SelectItems.ChosenSplit | tomviz/SelectItemsDialog.cxx:56-65 | choosing keeps the original order: the choice over a list is the choice over its two halves, concatenated |
| SelectItems.ChosenExtremes | tomviz/SelectItemsDialog.cxx:56-65 | with every box checked all items are chosen; with none, none |
| SelectItems.SelectItemsDialog.constructor | tomviz/SelectItemsDialog.cxx:16-54 | one unchecked box per item |
| SelectItems.SelectItemsDialog.SelectedItems | tomviz/SelectItemsDialog.cxx:56-65 | the checked items in their original order |
| SelectItems.SelectItemsDialog.Selections | tomviz/SelectItemsDialog.cxx:67-74 | one check state per item, in order |
| SelectItems.SelectItemsDialog.SetSelections | tomviz/SelectItemsDialog.cxx:76-90 | a list of the wrong size is refused and changes nothing; otherwise each box takes its state |
| SelectItems.SetThenRead | tomviz/SelectItemsDialog.cxx:56-90 | after a size-matching setSelections(s), selections() gives back s and selectedItems() the items s checks |
| ComboText.FinishEdit | tomviz/ComboTextEditor.cxx:72-83 | with duplicates off, a text that is already an entry is reverted to the current entry's text and nothing is emitted; otherwise the current entry is renamed and itemEdited is emitted; other entries never change |
| ComboText.FinishEditKeepsDistinct | tomviz/ComboTextEditor.cxx:72-83 | with duplicates off, distinct entry texts stay distinct through an edit |
| ComboText.DuplicatesEnabledCanRepeat | tomviz/ComboTextEditor.cxx:75 | with duplicates on, an entry may take another's text, so distinctness can be lost |
| ComboText.ComboTextEditor.constructor | tomviz/ComboTextEditor.cxx:12-25 | an empty editable combo box with duplicates off |
| ComboText.ComboTextEditor.Items | tomviz/ComboTextEditor.cxx:27-34 | the entry texts in index order |
| ComboText.ComboTextEditor.OnEditingFinished | tomviz/ComboTextEditor.cxx:72-83 | the edit is accepted or reverted as FinishEdit says, and with duplicates off distinct entries stay distinct |
| ComboText.ComboTextEditor.EventFilter | tomviz/ComboTextEditor.cxx:36-70 | any key event of Enter or Return, press or release, is consumed and clears the focus; losing focus while the text names another entry reselects the current entry; nothing else is consumed and the entries never change |
| TortuosityCoords.LexSortedDistinct | tomviz/python/Tortuosity.py:31-38 | a strictly ordered list of points holds each point once |
| TortuosityCoords.RangeSpec | tomviz/python/Tortuosity.py:32-34 | the one-axis case yields hi - lo points (none for an empty range), the k-th being (lo + k,) |
| TortuosityCoords.PrefixedSize | tomviz/python/Tortuosity.py:35-38 | prefixing every tail with every first coordinate gives (hi - lo) times as many points |
| TortuosityCoords.PrefixedMembers | tomviz/python/Tortuosity.py:35-38 | a prefixed point is a first coordinate in range followed by one of the tails |
| TortuosityCoords.PrefixedSorted | tomviz/python/Tortuosity.py:35-38 | the prefixed points come in lexicographic order |
| TortuosityCoords.CoordsMembers | tomviz/python/Tortuosity.py:31-38 | coord_iterator yields exactly the points of the half-open box |
| TortuosityCoords.CoordsSorted | tomviz/python/Tortuosity.py:31-38 | it yields them in strictly increasing lexicographic order, so each once |
| TortuosityCoords.CoordsSize | tomviz/python/Tortuosity.py:31-38 | it yields as many points as the box holds |
| TortuosityCoords.Cube | tomviz/python/Tortuosity.py:42 | the box {-1, 0, 1}^n |
| TortuosityCoords.HasNonZero | tomviz/python/Tortuosity.py:43 | any(c) holds exactly when some coordinate is non-zero |
| TortuosityCoords.KeepNonZeroMembers | tomviz/python/Tortuosity.py:42-44 | the filter keeps exactly the points with a non-zero coordinate |
| TortuosityCoords.NeighborsCount | tomviz/python/Tortuosity.py:41-44 | neighbor_iterator(n) yields 3^n - 1 offsets |
| TortuosityCoords.CubeSize | tomviz/python/Tortuosity.py:42 | the box {-1, 0, 1}^n holds 3^n points |
| TortuosityCoords.NeighborsMembers | tomviz/python/Tortuosity.py:41-44 | the offsets are exactly the non-zero vectors of length n with every coordinate in {-1, 0, 1} |
| TortuosityGraph.DistanceFunction | tomviz/python/Tortuosity.py:47-74 | methods 0, 1 and 2 give Euclidean, city-block and chess-board distance; any other raises |
| TortuosityGraph.DistanceSpec | tomviz/python/Tortuosity.py:51-69 | chess-board always weighs 1; city-block weighs 1 exactly when the L1 norm is at most 1 and gives None otherwise; Euclidean always gives a weight |
| TortuosityGraph.CityBlockFaceNeighbors | tomviz/python/Tortuosity.py:65-69 | among neighbour offsets, city-block keeps exactly those along one axis |
| TortuosityGraph.DistanceSymmetric | tomviz/python/Tortuosity.py:51-69 | every method gives an offset and its opposite the same weight |
| TortuosityGraph.ExtentOf | tomviz/python/Tortuosity.py:102 | the extent is (0, s) for each axis length s |
| TortuosityGraph.InPhaseMembers | tomviz/python/Tortuosity.py:103-104 | the numbered voxels are exactly the listed voxels of the phase |
| TortuosityGraph.InPhaseSorted | tomviz/python/Tortuosity.py:103-104 | dropping voxels of other phases keeps the lexicographic order |
| TortuosityGraph.NumberNodes | tomviz/python/Tortuosity.py:96-108 | the in-phase voxels, in lexicographic order, get the ids 2 * ndim, 2 * ndim + 1, ...; the node array holds each voxel's id, or -1 for another phase |
| TortuosityGraph.NodesAreThePhase | tomviz/python/Tortuosity.py:103-108 | a voxel gets a node exactly when it lies in the volume and belongs to the phase |
| TortuosityGraph.NodeIdsOrdered | tomviz/python/Tortuosity.py:103-108 | node ids follow the lexicographic order of the voxels |
| TortuosityGraph.Shift | tomviz/python/Tortuosity.py:125-126 | the neighbour's voxel adds the offset coordinate by coordinate, stopping at the shorter of the two |
| TortuosityGraph.Key | tomviz/python/Tortuosity.py:134-135 | an edge key is the pair ordered smaller first, holding the same two ids |
| TortuosityGraph.AddNodeEdges | tomviz/python/Tortuosity.py:124-136 | every weighted in-phase neighbour of one node gets its edge, and every other edge is kept |
| TortuosityGraph.FindEdges | tomviz/python/Tortuosity.py:110-136 | an edge exists exactly between two in-phase voxels one weighted offset apart, keyed (smaller id, larger id) with that offset's weight |
| TortuosityGraph.FaceExtent | tomviz/python/Tortuosity.py:142-144 | a face slice keeps one range per axis |
| TortuosityGraph.AddFace | tomviz/python/Tortuosity.py:145-147 | each numbered voxel of one face gets an edge of weight 1 from the face node, and other edges stay |
| TortuosityGraph.FaceEdges | tomviz/python/Tortuosity.py:138-147 | node 2 * i + j is linked with weight 1 to every numbered voxel of the first (j = 0) or last (j = 1) slice of axis i; an empty axis raises |
| TortuosityGraph.FaceKeysMembers | tomviz/python/Tortuosity.py:138-147 | a face edge reaches exactly the numbered voxels whose i-th coordinate is the face's index |
| TortuosityGraph.FromNodeSpec | tomviz/python/Tortuosity.py:159-161 | the face edges kept are exactly those leaving the chosen face node |
| TortuosityGraph.EdgesToSparse | tomviz/python/Tortuosity.py:155-187 | the triplets of every edge in order, then of the face edges leaving the chosen node; the count and fill loops agree, so the assertion holds, and the matrix has n_nodes + 2 * ndim rows |
| TortuosityGraph.FillFromNode | tomviz/python/Tortuosity.py:174-179 | the face edges leaving the chosen node follow, in order, from the first free entry; the entries before it are untouched |
| TortuosityGraph.FillEdges | tomviz/python/Tortuosity.py:167-172 | entry k holds edge k |
| TortuosityGraph.Cleaned | tomviz/python/Tortuosity.py:196-197 | the clean-up leaves no infinity and keeps finite values; NaN stays NaN because it never compares equal |
| TortuosityGraph.Unreached | tomviz/python/Tortuosity.py:191-193 | the volume starts with exactly the voxels of the box |
| TortuosityGraph.FilledKeys | tomviz/python/Tortuosity.py:194-195 | writing the node voxels adds no voxel |
| TortuosityGraph.FilledUntouched | tomviz/python/Tortuosity.py:194-195 | a voxel of no node keeps its value |
| TortuosityGraph.FilledLast | tomviz/python/Tortuosity.py:194-195 | the last node naming a voxel decides its value |
| TortuosityGraph.DistanceMapSpec | tomviz/python/Tortuosity.py:190-198 | the distance map covers exactly the volume and holds no infinity; a voxel of no node is -1 and a node's voxel holds its distance, cleaned |
| TortuosityGraph.DistanceMatrixToVolume | tomviz/python/Tortuosity.py:190-198 | the loop leaves DistanceMap of the node map, the distances and the shape |
| TortuosityGraph.SliceIndex | tomviz/python/Tortuosity.py:201-210 | the index lies on axis direction // 2, counted from the start for an even direction and from the end for an odd one; the assertion passes exactly for a slice number inside the axis |
| TortuosityGraph.OppositeDirections | tomviz/python/Tortuosity.py:202-209 | the two directions of an axis read its slices in opposite orders |
| TortuosityGraph.SliceScalars | tomviz/python/Tortuosity.py:201-217 | the slice is read exactly when the index check passes |
| TortuosityGraph.SliceScalarsMembers | tomviz/python/Tortuosity.py:211-215 | the slice holds exactly the voxels whose coordinate on the axis is the slice index |
| ManualManipulation.Roll | tomviz/python/ManualManipulation.py:7-9 | np.roll keeps the length |
| ManualManipulation.RollBySlicesIsRoll | tomviz/python/ManualManipulation.py:7-9 | np.roll computed by moving the last `shift mod n` elements to the front puts at index i the element shift places before it, wrapping around |
| ManualManipulation.RollRoll | tomviz/python/ManualManipulation.py:7-9 | rolling by a and then by b is rolling by a + b |
| ManualManipulation.RollWhole | tomviz/python/ManualManipulation.py:7-9 | a roll by a multiple of the length changes nothing |
| ManualManipulation.RollInverse | tomviz/python/ManualManipulation.py:7-9 | a roll is undone by the opposite roll, and a whole turn changes nothing |
| ManualManipulation.ShiftedAt | tomviz/python/ManualManipulation.py:1-9 | the shifted volume keeps its shape, and each cell comes from the cell shift places back on every axis, wrapping around |
| ManualManipulation.ShiftedInverse | tomviz/python/ManualManipulation.py:1-9 | shifting back by the opposite amounts restores the volume |
| ManualManipulation.Contents | tomviz/python/ManualManipulation.py:7-9 | the contents of the 3-D array, cell by cell |
| ManualManipulation.CopyInto | tomviz/python/ManualManipulation.py:7-9 | `array[:] = ...` gives every cell of the array the new value |
| ManualManipulation.CopyPlane | tomviz/python/ManualManipulation.py:7-9 | one plane of the array takes the new values and the other planes stay |
| ManualManipulation.ApplyShift | tomviz/python/ManualManipulation.py:1-9 | no shift leaves the array alone; otherwise it is rolled along axes 0, 1 and 2 in place |
| ManualManipulation.AxisPlan | tomviz/python/ManualManipulation.py:108-123 | the padding and cropping slices of one axis lie inside their axes and have the same length, min(x, y); the odd element of a pad or crop goes at the end; an axis not padded or cropped takes the whole range |
| ManualManipulation.ResizePlans | tomviz/python/ManualManipulation.py:106-123 | one padding and one cropping slice per axis both shapes have, each as AxisPlan gives it |
| ManualManipulation.Resize | tomviz/python/ManualManipulation.py:96-131 | the output has the reference shape, and is the input itself when the shapes already match |
| ManualManipulation.ResizeAt | tomviz/python/ManualManipulation.py:125-129 | a cell inside the padding box holds the corresponding cell of the cropping box, and every other cell is zero |
| ManualManipulation.PadThenCrop | tomviz/python/ManualManipulation.py:96-131 | padding to a larger shape and cropping back returns the volume: the two centrings agree |
| ManualManipulation.ApplyRotation | tomviz/python/ManualManipulation.py:12-69 | no rotation, or every angle within 1e-8 of 0, leaves the array alone; otherwise it raises, leaving the array alone, exactly when the spacing is None or fewer than three angles are given, and else the array takes the resampled image |
| ManualManipulation.Transform | tomviz/python/ManualManipulation.py:139-163 | without a rotation list it raises before changing anything; a rotation that ApplyRotation refuses raises with the array unchanged; otherwise the array is rotated (only when some angle is not close to 0) and then shifted in place, and with alignment the result is resampled unless a spacing is missing, resized to the reference shape, and given the reference spacing |
| Cli.ZipOptionsSpec | tomviz/python/tomviz/cli/__init__.py:14-17 | the keys are the ids, and an id shared by several data sources maps to the file name of the last of them |
| Cli.DataSourceOptions | tomviz/python/tomviz/cli/__init__.py:14-17 | succeeds exactly when every data source has an id and a reader with a file name; a missing id fails first, with KeyError 'id' |
| Cli.DataSourceOptionsSpec | tomviz/python/tomviz/cli/__init__.py:14-17 | the options map each id to the first file name of the last data source with that id, and have no other keys |
| Cli.OptionsError | tomviz/python/tomviz/cli/__init__.py:20-30 | building the error that lists the options always fails, with that error or with the one building the list raised first |
| Cli.PipelineCount | tomviz/python/tomviz/cli/__init__.py:42-43 | sum(with_pipeline) is at most the number of data sources and is 0 exactly when none has operators |
| Cli.FirstWithPipeline | tomviz/python/tomviz/cli/__init__.py:55 | with_pipeline.index(True) is the first data source with operators, and is absent exactly when none has them |
| Cli.OnlyPipeline | tomviz/python/tomviz/cli/__init__.py:42-55 | with exactly one data source with operators, the first one found is the only one |
| Cli.SelectOnlyPipeline | tomviz/python/tomviz/cli/__init__.py:42-55 | the choice among several data sources succeeds exactly when one has operators and it has an id; none raises "No operators were found" |
| Cli.AutoSelect | tomviz/python/tomviz/cli/__init__.py:33-55 | a single data source is selected, given the id "0x0" (written into the list) when it has none; otherwise the one data source with operators is selected |
| Cli.IndexOfId | tomviz/python/tomviz/cli/__init__.py:79 | ids.index(x) is the first data source with id x, and is absent exactly when none has it |
| Cli.ExtractPipeline | tomviz/python/tomviz/cli/__init__.py:58-89 | missing or empty data sources raise their messages; on success the result is the first data source with the selected (or auto-selected) id, which has a non-empty operator list, and that list |
| Cli.IndexOfFound | tomviz/python/tomviz/cli/__init__.py:79 | in a list of distinct data sources, each is found at its own position |
| Cli.AutoSelectedPipeline | tomviz/python/tomviz/cli/__init__.py:58-89 | without an explicit choice, a state with several data sources, all with ids and exactly one with operators, runs that one's pipeline |
| Cli.Name | tomviz/python/tomviz/cli/__init__.py:145 | Path.name is the tail of the path after its last '/' |
| Cli.StemSuffix | tomviz/python/tomviz/cli/__init__.py:145-151 | the stem and the suffix put back together give the name |
| Cli.Lower | tomviz/python/tomviz/cli/__init__.py:151 | lower-casing keeps the length and maps each ASCII capital to its small letter |
| Cli.Glob | tomviz/python/tomviz/cli/__init__.py:141-142 | the entries of the directory whose names end with the extension |
| Cli.DataFiles | tomviz/python/tomviz/cli/__init__.py:136-142 | the data files are exactly the entries ending in .emd, .h5 or .hdf5 |
| Cli.Pairs | tomviz/python/tomviz/cli/__init__.py:144-149 | one (input, output) pair per data file, the output named after it |
| Cli.OutputPlan | tomviz/python/tomviz/cli/__init__.py:136-155 | a directory gives one pair per data file, its output "<stem>_transformed.emd", inside the output directory when one is given; a single file must have an HDF5 suffix in any case and keeps the output path as given |
| Cli.NameUnder | tomviz/python/tomviz/cli/__init__.py:145 | the name of "dir/name" is name when name has no '/' |
| Cli.StemOfExtension | tomviz/python/tomviz/cli/__init__.py:145 | a stem followed by a single-dot extension splits back into the two |
| Cli.TransformedNameParts | tomviz/python/tomviz/cli/__init__.py:144-145 | an output name read back as a path has the input's stem plus "_transformed" as its stem and ".emd" as its suffix |
| Cli.TransformedNameOf | tomviz/python/tomviz/cli/__init__.py:144-145 | the output name of "<dir>/<stem><ext>" is "<stem>_transformed.emd" |
| Cli.SharedStemSharesOutput | tomviz/python/tomviz/cli/__init__.py:136-149 | inputs that differ only in their HDF5 extension, "a.emd" and "a.h5", both write "a_transformed.emd" |
| Dependencies.DepStrings | tomviz/python/tomviz/cli/data_source_dependencies.py:14-16 | the dependency strings among some argument values, in order and with duplicates kept, each starting with "0x" |
| Dependencies.DepStringsConcat | tomviz/python/tomviz/cli/data_source_dependencies.py:13-19 | collecting over two lists of arguments is collecting over each, concatenated |
| Dependencies.DependenciesAreDepArguments | tomviz/python/tomviz/cli/data_source_dependencies.py:11-21 | the dependencies are exactly the "0x" strings among all the arguments of the pipeline tree, in tree order, with duplicates kept |
| Dependencies.OpsAreDepArguments | tomviz/python/tomviz/cli/data_source_dependencies.py:13-19 | over a list of operators, the dependencies are the "0x" strings among their arguments and their children's |
| Dependencies.ChildrenAreDepArguments | tomviz/python/tomviz/cli/data_source_dependencies.py:18-19 | over a list of child data sources, likewise |
| Dependencies.DependenciesAreIds | tomviz/python/tomviz/cli/data_source_dependencies.py:15 | every dependency starts with "0x" |
| Dependencies.FindPathSound | tomviz/python/tomviz/cli/data_source_dependencies.py:38-48 | a path found is a chain from a top-level data source down through operator children to one whose id is dep |
| Dependencies.FindInOpsSound | tomviz/python/tomviz/cli/data_source_dependencies.py:44-48 | a path found below an operator is a chain from one of its children |
| Dependencies.FindPathComplete | tomviz/python/tomviz/cli/data_source_dependencies.py:38-48 | whenever such a chain exists the search finds a path |
| Dependencies.FindInOpsComplete | tomviz/python/tomviz/cli/data_source_dependencies.py:44-48 | whenever a chain starts at an operator's child the search below the operators finds a path |
| Dependencies.PathFoundIff | tomviz/python/tomviz/cli/data_source_dependencies.py:30-52 | the path is non-empty exactly when some chain leads to a data source with id dep |
| Dependencies.DepthMeaning | tomviz/python/tomviz/cli/data_source_dependencies.py:54-68 | depth 0 means dep is a top-level data source; depth 1 means it is a child of an operator of the top-level root |
| Dependencies.DependencyInfo.constructor | tomviz/python/tomviz/cli/data_source_dependencies.py:25-28 | the dependency and data sources are stored and no path is cached |
| Dependencies.DependencyInfo.Path | tomviz/python/tomviz/cli/data_source_dependencies.py:30-52 | the path is the search result, and it is cached (an empty path too) |
| Dependencies.DependencyInfo.RootDataSource | tomviz/python/tomviz/cli/data_source_dependencies.py:54-56 | the head of the path; an empty path raises |
| Dependencies.DependencyInfo.Depth | tomviz/python/tomviz/cli/data_source_dependencies.py:58-60 | the path's length minus one, -1 when dep is nowhere |
| Dependencies.DependencyInfo.IsRoot | tomviz/python/tomviz/cli/data_source_dependencies.py:62-64 | true exactly for a path of length 1 |
| Dependencies.DependencyInfo.IsChild | tomviz/python/tomviz/cli/data_source_dependencies.py:66-68 | true exactly for a path longer than 1 |
| Dependencies.SatisfiedGrows | tomviz/python/tomviz/cli/data_source_dependencies.py:73-81 | a satisfied dependency stays satisfied as more is loaded |
| Dependencies.DependencyLoader.constructor | tomviz/python/tomviz/cli/data_source_dependencies.py:71-74 | nothing is loaded yet |
| Dependencies.DependencyLoader.LoadSource | tomviz/python/tomviz/cli/data_source_dependencies.py:76-81 | a data source is read from file only when its id is not loaded yet; a loaded one is returned from the cache and nothing changes |
| Dependencies.DependencyLoader.LoadDependency | tomviz/python/tomviz/cli/data_source_dependencies.py:89-137 | one dependency of the loop: the loaded map only grows; when nothing stops the load the dependency is satisfied; a dependency found nowhere is an error |
| Dependencies.DependencyLoader.LoadDependencies | tomviz/python/tomviz/cli/data_source_dependencies.py:83-141 | the loaded map only grows; on success every dependency is satisfied (its root loaded, a child's pipeline output stored under its id) and the map is returned; no dependencies return the map unchanged |
| Dependencies.LoadAll | tomviz/python/tomviz/cli/data_source_dependencies.py:71-143 | on success every dependency of the target is satisfied, and each id is read from file at most once |
| LoadDataSource.CreateReadOptions | tomviz/python/tomviz/cli/load_data_source.py:9-17 | "subsampleSettings" is carried over and "keepCOrdering" becomes "keep_c_ordering", each exactly when present; nothing else is read |
| LoadDataSource.ReadOptionsEmpty | tomviz/python/tomviz/cli/load_data_source.py:9-17 | the options are empty exactly when the data source has neither key |
| LoadDataSource.LastIndex | tomviz/python/tomviz/cli/load_data_source.py:29 | the last position of a character, or none when it does not occur |
| LoadDataSource.Parent | tomviz/python/tomviz/cli/load_data_source.py:29 | the parent of a path is no longer than it, and is the current directory for a bare name |
| LoadDataSource.Join | tomviz/python/tomviz/cli/load_data_source.py:29 | an absolute name stands alone, a name under the current directory is itself, and the result always ends with the name |
| LoadDataSource.ExtractDataPath | tomviz/python/tomviz/cli/load_data_source.py:20-34 | succeeds exactly when the reader names exactly one file that exists relative to the state file's directory; no reader, an image stack and a missing file each raise |
| LoadDataSource.Load | tomviz/python/tomviz/cli/load_data_source.py:37-42 | the file is read, with the read options, exactly when extract_data_path succeeds |
| ExternalDataset.Dataset.constructor | tomviz/python/tomviz/external_dataset.py:10-30 | the arrays and the settled active name are stored; tilt angles, tilt axis, spacing, backgrounds and file name are None and the metadata empty |
| ExternalDataset.NewDataset | tomviz/python/tomviz/external_dataset.py:10-30 | without an active name a single array becomes the active one and no array leaves it None, while more than one raises on unpacking; a given name is kept |
| ExternalDataset.Dataset.ActiveScalars | tomviz/python/tomviz/external_dataset.py:32-34 | the array under the active name; a missing key raises |
| ExternalDataset.Dataset.SetActiveScalars | tomviz/python/tomviz/external_dataset.py:36-38 | the array is stored under the active name, whatever it is, and nothing else changes |
| ExternalDataset.Dataset.GetScalars | tomviz/python/tomviz/external_dataset.py:44-47 | the named array, the active one when no name is given; a missing key raises |
| ExternalDataset.Dataset.ScalarsNames | tomviz/python/tomviz/external_dataset.py:40-42 | exactly the names of the arrays |
| ExternalDataset.Dataset.SetSpacing | tomviz/python/tomviz/external_dataset.py:53-60 | only a sequence of exactly three values is taken; a non-sequence and a wrong length each raise their message and keep the old spacing |
| ExternalDataset.Dataset.CreateChildDataset | tomviz/python/tomviz/external_dataset.py:62-71 | the child copies every field except the tilt angles; a parent with tilt angles and a spacing s gives it the spacing [s0, s1, s0] |
| ExternalDataset.SpacingRoundTrip | tomviz/python/tomviz/external_dataset.py:49-71 | a spacing that was set reads back unchanged, and a child of a tilt series keeps the parent's x spacing on its tilt axis |
| Json.IntArray | tomviz/operators/CropOperator.cxx:106-110 | a JSON array with one whole number per value, in order |

## Left out

- Threads, the Qt event loop, signal delivery across threads and `deleteLater` are not modelled. Each pipeline slot is one event on the run. Whether `tryTake` wins and whether an operator reports itself canceled are event parameters.
- `Operator.h`, `Module.h`, `ArrayWranglerOperator.h`, `LoadDataReaction`, `SaveLoadStateReaction` and `Hdf5SubsampleWidget` are not part of this model. Their enums and defaults are datatypes or parameters, for example `TransformResult`, the default scalars index and the wrangler's defaults. Whether `SaveLoadStateReaction::loadState` succeeds is a parameter; its one effect on the recent-files list, pushing the loaded file to the front, is modelled.
- `MULTI_VOLUME_SWITCH`, whose value is not in the modelled files, is a parameter.
- File, settings and HDF5 I/O are left out. A file is the lines it holds, or None when it is missing or cannot be opened. The file system is a set of existing paths. HDF5 is reduced to dimensions, dataset paths and the values a read returns.
- JSON parsing and `QSettings` storage are left out. Settings are the JSON value stored under a key.
- Widgets, panels, dialogs, rendering, ParaView proxies and VTK filters are reduced to the values they are given: slider ranges, normals, array names, flags and emitted signals.
- Floating point is left out:
  - the array wrangler's rescale to the output range;
  - tilt-series values converted to `float`, which are reals here;
  - the Euclidean edge weight, kept as the square root of a whole number;
  - the tortuosity statistics and progress fractions;
  - rotation and resampling in `ManualManipulation.py`. The ITK resampling that `apply_rotation` runs is not modelled: its output is the `rotated` input of `Transform`, as scipy's `zoom` output is `zoomed`. Failures inside ITK, for example on a spacing that is not three values, are not modelled.
- The regular-expression engine is left out. `QRegExp::exactMatch`/`cap` results are inputs, and only the pattern text and what is done with the captures are modelled.
- numpy, scipy, ITK and the shortest-path search are outside the model. The distance matrix is an input of `DistanceMatrixToVolume`, and loaded datasets and pipeline outputs are symbolic `Loaded` values.
- `calculate_avg_path_length`, `calculate_tortuosity`, `calculate_tortuosity_distribution`, `get_update_progress_fn` and `TortuosityOperator.transform` in `Tortuosity.py` are not modelled: they are floating-point statistics and progress reporting.
- Fixed-width integers are unbounded here. The model does not capture int32 overflow of bounds, indices or node ids, or `size_t` indexing in the tilt-series loops.
- Python dictionary and key order is not modelled where it only affects listing order, for example `Dataset.ScalarsNames`.
- `pathlib` normalisation is reduced to text: symbolic links are not followed, and `Path.glob` lists the directory's entries in a given order.
- GenericHdf5.ReorderInto: requires active scalars whenever the input has arrays. With arrays but no active scalars the source dereferences a null `inPd->GetScalars()` (tomviz/GenericHDF5Format.cxx:135), which has no defined outcome to model.
- Dependencies.DependencyLoader.LoadDependencies: recursion is bounded by a `fuel` parameter, standing for Python's recursion limit. Running out of fuel is an error the source reports as `RecursionError`.
- Dependencies.DependencyLoader.LoadDependencies: the exception messages that list the available options are not modelled character for character; only that an error is raised.
- Cli.AutoSelect: writing the "0x0" id into the caller's list is modelled by returning the updated list.
- ExternalDataset.Dataset.SetSpacing: a Python `str` of length 3 is a sequence and is accepted by the source. The model's argument is either a list of numbers or not a sequence.
- PipelineWorker.Run.CancelOp: the source dereferences an empty running slot. The model treats an empty slot as "not the running operator" and goes on to search the queue.
- RecentFiles.RecentFilesMenu.StateTriggered: the corrected removal drops every entry with the file name. The source's `removeAt` loop does not step back, so the loop as written would skip an entry that follows a removed one.
- `Run::operators`, `Future::operators` and the other getters are modelled, but the `Future` object's signal forwarding (`finished`, `canceled`) is only recorded.
- `ModuleClip::onPlaneChanged()`, the widget-driven overload, is not modelled: it converts floating-point widget geometry.
- `ColorMap::applyPreset(proxy)` is reduced to which preset is applied. The ParaView transfer-function calls are not modelled.
- ManualManipulation.Transform: the float32 conversion before a rotation is not modelled, because values are reals.
- QStringArg.Arg: only the ASCII digits 0-9 make place markers; QChar::digitValue also accepts digits of other scripts. Field width, fill characters and `%L` locale formatting, which do not change a string argument, are not modelled.

## Findings

| source | as written | input that shows it | evidently intended | confidence | as-written member | corrected member |
|---|---|---|---|---|---|---|
| tomviz/RecentFilesMenu.cxx:320-328 | the matching entry is removed from a copy (`states`) of the "states" array, and the unchanged object is saved | a saved list holding one state file "f" whose action is triggered for a missing file: "f" is still listed afterwards | the entry is removed from the saved list | high (not executed) | RecentFiles.StateTriggeredKeepsEntry | RecentFiles.StateTriggeredRemovesEntry |
| tomviz/modules/ModuleClip.cxx:153-166 | the slider maximum is `dims[directionAxis(m_direction)] - 1` for every direction, and `directionAxis(Custom)` is -1 | a clip with a custom plane whose data is updated: `dims[-1]` is read, outside the three dimensions | the slider range is only set for an axis-aligned plane | high (not executed) | ClipModules.PlaneWidgetAsWrittenReadsOutside | ClipModules.ModuleClip.UpdatePlaneWidget |
| tomviz/TomographyTiltSeries.cxx:105-129 | `weight1 = frac(rayCoord)` multiplies the lower sample `index1` and `1 - frac` the upper one | two rays over a two-sample axis centred at 0 (coordinates -1 and 0, both whole): the first ray gets the second sample and the second ray gets 0 | linear interpolation: the lower sample weighted by `1 - frac` and the upper by `frac` | medium (not executed) | TiltSeries.AsWrittenShiftsRays | TiltSeries.GetSinogramResampled |
| tomviz/operators/ArrayWranglerOperator.cxx:182-190 | only `m_componentToKeep >= components` is refused | `componentToKeep = -1`, which deserialize loads from any JSON number: the first read is `d[-1]`, before the array | a component index in [0, components) | high (not executed) | ArrayWrangler.NegativeComponentPassesGuard | ArrayWrangler.Guard |
| tomviz/acquisition/BasicFormatWidget.cxx:133-145 | the template is filled by five chained `QString::arg` calls, and each call replaces the lowest marker left, including one an earlier field brought in | prefix "a%2", signs "n" and "p", empty suffix, extension "dm3": the Qt pattern starts "^an(" instead of "^a%2(" | each field inserted literally, as the multi-argument `arg(a1, ..., a5)` does in one pass | medium (not executed) | BasicFormat.AsWrittenFillsPrefixMarker | BasicFormat.BuildRegexes |
