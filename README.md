# pros-simulator host state, in Dafny

pros-simulator runs PROS robot code compiled to WebAssembly. It provides the
PROS C API as host functions over simulated hardware. This project models the
state behind those host functions, and proves properties about it.

What is modelled:

- **Controllers**: master and partner controllers, with latched "new press"
  flags for each digital button.
- **LLEMU display**: in two versions.
  - The packaged one has 40-byte lines and publishes every change as an
    event.
  - The original single-crate one has 50-byte lines.
- **Sandbox memory**: byte-range reads and writes, and the scan for a
  NUL-terminated string.
- **Per-task state**: thread-local storage slots and the errno cell.
- **Task pool**:
  - id allocation;
  - the candidate set at the highest priority;
  - the round-robin scheduler;
  - the run-until-empty loop;
  - the warning sent for each unimplemented import.
- **Errno convention**: how host functions report errors to the robot code.
- **Host functions**: the controller, competition and display host
  functions.
- **Smart ports**: the port table and the motor setters.
- **System daemon**: the daemon that turns frontend messages into controller
  updates and competition-task restarts.

How the Rust code is represented:

- A fallible host call returns `Fatal<T>`. `Aborts` stands for a Rust panic,
  and for an error that `?` passes up to the sandbox, which traps.
- A result that the robot code sees as an error code is
  `Result<T, i32>`.
- Sandbox memory is an `array<u8>`.
- The event channel to the frontends is a `SimulatorInterface` object. Its
  ghost field `sent` records every event sent so far.
- Objects that the Rust code changes in place are Dafny classes:
  `Controller`, both `Lcd`s, `Task`, `TaskPool`, `Motor`, `SmartPorts`,
  `Host`, `InnerHost` and `Daemon`.

Constants and version differences:

- The PROS constants come from the PROS C headers, which are not part of this
  model:
  - controller ids: `E_CONTROLLER_MASTER` = 0 and `E_CONTROLLER_PARTNER` = 1;
  - analog channels 0 to 3;
  - digital buttons `L1` = 6 to `A` = 17;
  - errno codes `ENXIO` = 6 and `EINVAL` = 22.
- The snapshot mixes two versions of the interface crate. The model follows
  the code that uses the interface:
  - `PhaseChange` carries a `CompetitionPhase` record with `autonomous`,
    `enabled` and `is_competition`.
  - Events include `MotorUpdated`.
  - `SmartDeviceSpec` has a single `Motor` kind.
- `Host::new` calls `TaskPool::new` with three arguments. In
  `packages/pros-simulator/src/host/task.rs` that function takes two. The
  model builds an empty pool.
- `InnerHost::new` passes an interface to the older `Lcd`, which has no such
  constructor. The model builds the `Default` display.
- The daemon tests for `TaskState::Ready`, but neither `TaskState` declares
  it. The model takes "the previous competition task is ready" as an input
  to each message.

The older display in `src/host/lcd.rs` has the same `assert_initialized` check as the packaged one, and the model uses `Lcd.AssertInitialized` for both.

In the parts modelled here (the task's fields, `local_storage`, `errno`,
`by_id`, `current`, `highest_priority_task_ids`, `cycle_tasks`,
`run_to_completion`, `task_state` and `Errno`), the older `src/host/task.rs`
matches the packaged task pool. It differs from it in `spawn`'s parameters
and result and in `TaskPool::new`'s arguments. The packaged file also has
`create_store`, `instantiate` and `spawn_closure`, which the older one lacks.
The same members model both, and the rows below cite the packaged file.

## Model

| member | source | states |
|---|---|---|
| Common.LeRoundTrip | packages/pros-simulator/src/host/thread_local.rs:64-77 | Little-endian encoding of a 32-bit word round-trips, in both directions |
| Common.I32Bits | packages/pros-simulator/src/host/task.rs:519-524 | The two's-complement pattern of an errno code decodes back to the same code |
| Interface.BlankLines | packages/pros-simulator-interface/src/lib.rs:3-5 | The default snapshot is `LCD_HEIGHT` = 8 lines, all empty |
| Interface.DigitalControllerState.FromButtons | packages/pros-simulator-interface/src/lib.rs:8-21 | Exactly 12 buttons, `l1` to `a`. Building a state from 12 booleans and reading them back gives the same booleans |
| Interface.DigitalControllerState.With | packages/pros-simulator-interface/src/lib.rs:8-21 | Changing one button changes that button only |
| Interface.ButtonsRoundTrip | packages/pros-simulator-interface/src/lib.rs:8-21 | A digital state is determined by its 12 buttons |
| Interface.SimulatorInterface.Send | packages/pros-simulator/src/interface.rs:1-27 | Sending appends exactly one event to the event stream |
| Controllers.AnalogField | packages/pros-simulator/src/host/controllers.rs:138-144 | Channels 0 to 3 give left_x, left_y, right_x, right_y. Any other channel gives nothing |
| Controllers.DigitalField | packages/pros-simulator/src/host/controllers.rs:177-192 | A button is found iff its id is in 6 to 17. Any other id gives nothing |
| Controllers.DigitalFieldIsButton | packages/pros-simulator/src/host/controllers.rs:177-192 | Ids 6 to 17 give the 12 buttons in declaration order, so id `L1 + k` is `Buttons()[k]` |
| Controllers.Latch | packages/pros-simulator/src/host/controllers.rs:28-42 | For every button, the new flag is (pressed now and not before) or the old flag. No flag is ever cleared |
| Controllers.Connect | packages/pros-simulator/src/host/controllers.rs:17-24 | A new controller stores the state. Each new-press flag equals that button's pressed value |
| Controllers.UpdateSlot | packages/pros-simulator/src/host/controllers.rs:62-81 | `None` leaves the slot as it is. `Some` updates a connected controller, or connects an absent one as `From` does |
| Controllers.FlagAfterIffRise | packages/pros-simulator/src/host/controllers.rs:28-42 | Across any run of updates, one button's flag ends set iff it started set or there was a rising edge |
| Controllers.FlagsAfterByButton | packages/pros-simulator/src/host/controllers.rs:28-42 | The 12 flags after a run of updates are the per-button folds |
| Controllers.FlagsAfterIffRisingEdge | packages/pros-simulator/src/host/controllers.rs:26-44 | After any run of updates, a button is flagged iff it was flagged before or it was pressed at some update after being released |
| Controllers.Controller.FromState | packages/pros-simulator/src/host/controllers.rs:17-24 | The constructed controller is `Connect(state)` |
| Controllers.Controller.Update | packages/pros-simulator/src/host/controllers.rs:28-44 | The state becomes the new state, and the flags become `Latch(old state, new state, old flags)` |
| Controllers.Controller.TakeNewPress | packages/pros-simulator/src/host/controllers.rs:224-247 | Returns the button's flag and clears that flag only |
| Controllers.NewPressReportedOnce | packages/pros-simulator/src/host/controllers.rs:224-247 | After a new-press read, the same read answers false. The pressed state and connection are unchanged |
| Controllers.Controllers.constructor | packages/pros-simulator/src/host/controllers.rs:54-60 | Each given state connects its controller as `From` does. A missing one is disconnected |
| Controllers.Controllers.Update | packages/pros-simulator/src/host/controllers.rs:62-81 | Both slots become `UpdateSlot(old, update)`. Existing controllers are updated in place |
| Controllers.Controllers.ControllerFor | packages/pros-simulator/src/host/controllers.rs:92-99 | `EINVAL` iff the id is neither master nor partner |
| Controllers.Controllers.IsConnected | packages/pros-simulator/src/host/controllers.rs:83-89 | Master and partner report whether they are present. Any other id gives `EINVAL` |
| Controllers.Controllers.GetAnalog | packages/pros-simulator/src/host/controllers.rs:135-149 | Bad id: `EINVAL`. Disconnected: `Ok(0)`. Unknown channel: `EINVAL`. Otherwise the axis, within i8 range |
| Controllers.Controllers.GetDigital | packages/pros-simulator/src/host/controllers.rs:174-195 | Same pattern as `get_analog`. A disconnected controller gives `Ok(false)` |
| Controllers.Controllers.GetDigitalNewPress | packages/pros-simulator/src/host/controllers.rs:224-247 | Answers the flag and consumes it on the addressed controller. The other controller is unchanged |
| Controllers.ReadNewPressTwice | packages/pros-simulator/src/host/controllers.rs:224-247 | An immediate second new-press read never answers true, and fails exactly when the first one fails |
| Lcd.AssertInitialized | packages/pros-simulator/src/host/lcd.rs:29-35 | `ENXIO` iff the display is not initialised |
| Lcd.AssertLineInBounds | packages/pros-simulator/src/host/lcd.rs:37-43 | `EINVAL` iff the line is outside 0..8 |
| Lcd.AssertTextLengthInBounds | packages/pros-simulator/src/host/lcd.rs:45-51 | `EINVAL` iff the text is longer than 40 bytes |
| Lcd.Lcd.constructor | packages/pros-simulator/src/host/lcd.rs:21-27 | A new display has 8 empty lines, is not initialised and sends nothing |
| Lcd.Lcd.Initialize | packages/pros-simulator/src/host/lcd.rs:53-60 | Succeeds once and sends one `LcdInitialized`. Later calls fail and send nothing |
| Lcd.Lcd.SetLine | packages/pros-simulator/src/host/lcd.rs:62-71 | Checks run in order: initialised, then line, then length. A failure changes nothing and sends nothing. Success replaces only that line and sends the new snapshot |
| Lcd.Lcd.Clear | packages/pros-simulator/src/host/lcd.rs:73-81 | `ENXIO` before initialisation, with nothing changed. Otherwise all 8 lines become empty and one blank snapshot is sent |
| Lcd.Lcd.ClearLine | packages/pros-simulator/src/host/lcd.rs:83-91 | `set_line`'s errors without the length check. Success empties that line only and sends the snapshot |
| LegacyLcd.AssertLineInBounds | src/host/lcd.rs:24-30 | `EINVAL` iff the line is outside 0..8 |
| LegacyLcd.AssertTextLengthInBounds | src/host/lcd.rs:32-38 | `EINVAL` iff the text is longer than 50 bytes |
| LegacyLcd.Lcd.constructor | src/host/lcd.rs:6-10 | The default display is not initialised and has 8 empty lines |
| LegacyLcd.Lcd.IsInitialized | src/host/lcd.rs:49-51 | Reflects the initialised flag |
| LegacyLcd.Lcd.Initialize | src/host/lcd.rs:40-47 | Succeeds once, then fails |
| LegacyLcd.Lcd.SetLine | src/host/lcd.rs:53-61 | Errors `ENXIO`, then `EINVAL` for the line, then `EINVAL` above 50 bytes, each with nothing changed. Success changes only the target line |
| LegacyLcd.Lcd.Clear | src/host/lcd.rs:75-82 | Loops over lines 0..8 and empties each one. `ENXIO` before initialisation |
| LegacyLcd.Lcd.ClearLine | src/host/lcd.rs:84-91 | Empties one line that is in bounds. Otherwise `ENXIO` or `EINVAL`, with nothing changed |
| Memory.FirstZero | src/host/memory.rs:17-26 | The position of the first zero byte, with no zero before it. Nothing iff there is no zero |
| Memory.Splice | src/host/memory.rs:35-37 | Bytes in the written range come from the buffer. All other bytes are unchanged |
| Memory.SpliceReadBack | src/host/memory.rs:31-49 | Reading a written range gives back the buffer |
| Memory.SpliceFrame | src/host/memory.rs:31-39 | A write leaves every range outside its own unchanged |
| Memory.ReadCStr | src/host/memory.rs:15-30 | A pointer past the end panics. Otherwise: the bytes up to, not including, the first zero; or an error iff no zero follows the pointer |
| Memory.WriteRelaxed | src/host/memory.rs:31-39 | Out of bounds, with memory unchanged, iff offset + length exceeds memory. Otherwise exactly the range is overwritten |
| Memory.ReadRelaxed | src/host/memory.rs:40-49 | Out of bounds iff the range does not fit. Otherwise exactly `length` bytes, in order |
| Memory.WriteThenRead | src/host/memory.rs:31-49 | After a successful write, reading the same range returns the buffer |
| ThreadLocal.AssertInBounds | packages/pros-simulator/src/host/thread_local.rs:51-58 | Panics iff the index is outside 0..5 |
| ThreadLocal.TaskStorage.GetAddress | packages/pros-simulator/src/host/thread_local.rs:59-63 | Panics outside 0..5. Otherwise base + 4 * index, wrapped to u32 |
| ThreadLocal.TaskStorage.Load | packages/pros-simulator/src/host/thread_local.rs:64-70 | Succeeds iff the index is in bounds and the slot lies inside memory |
| ThreadLocal.TaskStorage.Store | packages/pros-simulator/src/host/thread_local.rs:72-78 | Succeeds exactly when `Load` would, and keeps the memory size |
| ThreadLocal.SlotLayout | packages/pros-simulator/src/host/thread_local.rs:42-48 | The five slots are disjoint 4-byte cells inside the 20-byte block |
| ThreadLocal.LoadAfterStore | packages/pros-simulator/src/host/thread_local.rs:64-78 | `get(i)` after `set(i, v)` is `v`. Setting slot j leaves slot i unchanged when j differs from i |
| ThreadLocal.Get | packages/pros-simulator/src/host/thread_local.rs:64-70 | Reads the slot little-endian, which is exactly `Load` |
| ThreadLocal.Set | packages/pros-simulator/src/host/thread_local.rs:72-78 | Writes `v` little-endian at the slot's address, which is exactly `Store`. A panic leaves memory unchanged |
| LegacyThreadLocal.SetAddress | src/host/thread_local.rs:64-74 | Bounds check through `get_address`, then a little-endian write, which is exactly `Store` |
| Tasks.Memalign | packages/pros-simulator/src/host.rs:52-68 | The allocator's answer is used iff it is non-zero. Zero panics |
| Tasks.Errno.Written | packages/pros-simulator/src/host/task.rs:519-524 | The write succeeds iff the 4-byte cell lies inside memory |
| Tasks.Errno.Set | packages/pros-simulator/src/host/task.rs:519-524 | Memory becomes `Written`. A panic leaves it unchanged |
| Tasks.ErrnoReadBack | src/host/task.rs:236-241 | After a write, the cell reads back the code. No other byte changes |
| Tasks.Task.constructor | packages/pros-simulator/src/host/task.rs:45-61 | A new task has the given id, priority 0, no storage, no errno and is not finished |
| Tasks.Task.LocalStorage | packages/pros-simulator/src/host/task.rs:63-73 | The first call allocates the block, or panics when the allocation comes back null. Later calls return the memoised block unchanged |
| Tasks.Task.ErrnoCell | packages/pros-simulator/src/host/task.rs:75-82 | The first call allocates the cell, or panics when the allocation comes back null. Later calls return the memoised cell unchanged |
| Tasks.LocalStorageIsMemoised | src/host/task.rs:47-57 | Two successive calls return the same storage |
| Tasks.Insert | packages/pros-simulator/src/host/task.rs:421-442 | Inserting into an ascending sequence keeps it ascending and adds one element |
| Tasks.Sort | packages/pros-simulator/src/host/task.rs:421-442 | Sorting distinct ids gives an ascending sequence with the same elements |
| Tasks.SortedUnique | packages/pros-simulator/src/host/task.rs:421-442 | Two ascending sequences with the same elements are equal, so the result does not depend on map order |
| Tasks.CandidatesNonEmpty | packages/pros-simulator/src/host/task.rs:421-442 | The candidate set is empty iff the pool is empty |
| Tasks.RoundRobinChoiceUnique | packages/pros-simulator/src/host/task.rs:444-455 | The round-robin choice is unique |
| Tasks.UnimplementedMessage | packages/pros-simulator/src/host/task.rs:352-355 | The warning text is the prefix "Unimplemented API `", then the import's name, then a fixed 41-character suffix |
| Tasks.UnimplementedMessageNames | packages/pros-simulator/src/host/task.rs:352-355 | The name can be read back from the warning, so different imports give different warnings |
| Tasks.ImportWarningsAppend | packages/pros-simulator/src/host/task.rs:347-357 | The warnings for a concatenation are the warnings of each part, in order |
| Tasks.ImportWarningsNameUnlinked | packages/pros-simulator/src/host/task.rs:347-357 | Every warning names an import the linker lacks. There are no warnings when all imports are linked |
| Tasks.WarnUnimplementedImports | packages/pros-simulator/src/host/task.rs:347-357 | Sends exactly one warning per unlinked import, in import order |
| Tasks.TaskPool.constructor | src/host/task.rs:102-109 | A new pool is empty, with no current task and no id used |
| Tasks.TaskPool.Spawn | packages/pros-simulator/src/host/task.rs:365-377 | The new id is the previous newest id + 1, was not in the pool, and is added with a fresh task |
| Tasks.TaskPool.Current | packages/pros-simulator/src/host/task.rs:415-419 | Panics iff there is no current task |
| Tasks.TaskPool.ById | packages/pros-simulator/src/host/task.rs:408-413 | Id 0 is the current task and panics without one. Any other id is a pool lookup |
| Tasks.TaskPool.HighestPriorityTaskIds | packages/pros-simulator/src/host/task.rs:421-442 | Exactly the ids at the pool's maximum priority, in ascending order |
| Tasks.TaskPool.CycleTasks | packages/pros-simulator/src/host/task.rs:444-458 | Picks the smallest candidate above the current id, else wraps to the smallest. The pick has maximal priority. Returns false iff the pool is empty, leaving no current task |
| Tasks.TaskPool.SetCurrentErrno | packages/pros-simulator/src/host.rs:312-317 | Returns iff there is a current task whose errno cell exists or can be allocated, and fits in memory. Then the cell holds the code and nothing else in memory changes. Otherwise it panics and memory is untouched. The task's storage block and finished flag are kept |
| Tasks.TaskPool.TaskStateOf | packages/pros-simulator/src/host/task.rs:485-500 | `Running` iff it is the current task. Otherwise `Finished` iff finished, else `Idle` |
| Tasks.TaskPool.TaskStorageOf | packages/pros-simulator/src/host/thread_local.rs:91-100 | An unknown handle panics. Otherwise that task's storage is allocated on first use and returned. No other task changes |
| Tasks.TaskPool.RunToCompletion | packages/pros-simulator/src/host/task.rs:460-483 | Each poll picks the round-robin choice among the highest-priority tasks, starting after the previously polled one. When no poll creates, deletes or re-prioritises tasks, the pool ends as the start pool minus exactly the tasks whose poll finished. When the loop stops early, the pool is empty |
| Tasks.PollTraceSnoc | packages/pros-simulator/src/host/task.rs:460-483 | One more round-robin poll extends a valid trace of polls |
| Tasks.ReadyIdsSnoc | packages/pros-simulator/src/host/task.rs:460-483 | Removing a finished task keeps the pool equal to the start pool minus the finished tasks |
| HostState.Host.constructor | packages/pros-simulator/src/host.rs:92-115 | The display is uninitialised and blank, and there are no mutexes, no tasks and no controllers. The phase and ports are the defaults |
| HostState.Host.UnwrapOrErrno | packages/pros-simulator/src/host.rs:311-319 | `Ok`: true, with memory and errno untouched. `Err(code)`: false exactly when errno can be set, and then errno reads `code` and no other byte of memory changes. Otherwise a trap. The current task's storage block and finished flag are kept |
| HostState.Host.UnwrapOrErrnoAs | packages/pros-simulator/src/host.rs:321-332 | `Ok(v)`: `v`, with nothing touched. `Err(code)`: the fallback exactly when errno can be set, and then errno reads `code` and no other byte of memory changes. Otherwise a trap. The current task's storage block and finished flag are kept |
| LegacyHost.InnerHost.constructor | src/host.rs:84-101 | All entry points are `None`. The display is uninitialised, and there are no mutexes, no allocator and no tasks |
| LegacyHost.InnerHost.UseErrno | src/host.rs:118-129 | True iff `Ok`, which leaves errno alone. `Err(code)` gives false exactly when errno can be set, and then errno reads `code` and no other byte of memory changes. Otherwise a trap. The current task's storage block and finished flag are kept |
| LegacyHost.InnerHost.TaskStorageOf | src/host/thread_local.rs:83-92 | Panics while the robot code's allocator is unknown or the handle is unknown. Otherwise that task's storage, allocated on first use. No other task changes |
| Common.BoolToInt | packages/pros-simulator/src/api/misc.rs:55 | `i32::from(bool)` and `u32::from(bool)` are 1 for true and 0 for false |
| MiscApi.ControllerGetAnalog | packages/pros-simulator/src/api/misc.rs:34-45 | The axis value for a valid id, or 0 with `EINVAL` in errno, no other byte of memory changed and the task's other fields kept, when errno can be set; otherwise a trap |
| MiscApi.ControllerGetDigital | packages/pros-simulator/src/api/misc.rs:47-58 | 1 or 0 for the button, or 0 with `EINVAL` in errno, no other byte of memory changed and the task's other fields kept, when errno can be set; otherwise a trap |
| MiscApi.ControllerGetDigitalNewPress | packages/pros-simulator/src/api/misc.rs:60-71 | 1 or 0 for the flag, and the press is consumed. On error, 0 with `EINVAL` in errno, no other byte of memory changed and the task's other fields kept, when errno can be set; otherwise a trap |
| MiscApi.ControllerIsConnectedAsWritten | packages/pros-simulator/src/api/misc.rs:73-84 | As written: 1 for any valid id, even a disconnected controller, with memory untouched. An invalid id gives 0 with `EINVAL` in errno, no other byte of memory changed and the task's other fields kept, when errno can be set; otherwise a trap |
| MiscApi.ControllerIsConnected | packages/pros-simulator/src/api/misc.rs:73-84 | As intended: 1 iff the controller is connected. An invalid id gives 0 with `EINVAL` in errno, no other byte of memory changed and the task's other fields kept, when errno can be set; otherwise a trap |
| MiscApi.ControllerGetBatteryCapacity | packages/pros-simulator/src/api/misc.rs:86-90 | Always 100, whatever the id |
| MiscApi.ControllerGetBatteryLevel | packages/pros-simulator/src/api/misc.rs:92-96 | Always equal to the capacity |
| MiscApi.CompetitionIsAutonomous | packages/pros-simulator/src/api/misc.rs:109-118 | 1 iff autonomous |
| MiscApi.CompetitionIsConnected | packages/pros-simulator/src/api/misc.rs:120-129 | 1 iff a competition controller is connected |
| MiscApi.CompetitionIsDisabled | packages/pros-simulator/src/api/misc.rs:131-140 | 1 iff not enabled |
| LlemuApi.LcdInitialize | packages/pros-simulator/src/api/llemu.rs:24-29 | 1 on the first call, 0 afterwards. Errno and memory are never touched |
| LlemuApi.LcdSetText | packages/pros-simulator/src/api/llemu.rs:31-41 | A bad pointer or a missing terminator traps. Otherwise 1 with the line set. On failure nothing on the screen changes, and the result is 0 with `ENXIO` or `EINVAL` in errno, no other byte of memory changed and the task's other fields kept, when errno can be set; otherwise a trap |
| LlemuApi.LcdClearLine | packages/pros-simulator/src/api/llemu.rs:43-52 | 1 with the line emptied. On failure, 0 with `ENXIO` or `EINVAL` in errno, no other byte of memory changed and the task's other fields kept, when errno can be set; otherwise a trap |
| LlemuApi.LcdClear | packages/pros-simulator/src/api/llemu.rs:54-59 | 1 with every line emptied. On failure, 0 with `ENXIO` in errno, no other byte of memory changed and the task's other fields kept, when errno can be set; otherwise a trap |
| LlemuApi.ButtonCallbackRegistrarNames | packages/pros-simulator/src/api/llemu.rs:61-64 | The registrars for buttons 0, 1 and 2 are `lcd_register_btn0_cb`, `lcd_register_btn1_cb` and `lcd_register_btn2_cb` |
| LlemuApi.ButtonCallbackRegistrarsDistinct | packages/pros-simulator/src/api/llemu.rs:61-77 | The three registrars have three different names |
| SmartDevices.Clamp | packages/pros-simulator/src/host/smart_device.rs:130 | The result lies in `lo..=hi`. It equals the input when the input is in range, and otherwise the nearer bound |
| SmartDevices.EncoderUnitsFromCode | packages/pros-simulator/src/host/smart_device.rs:135-140 | Codes 0, 1 and 2 are accepted. Anything else is rejected |
| SmartDevices.EncoderUnitsCode | packages/pros-simulator/src/host/smart_device.rs:135-140 | Each unit has a code in 0..=2 |
| SmartDevices.EncoderUnitsCodeRoundTrip | packages/pros-simulator/src/host/smart_device.rs:135-140 | 0 is Degrees, 1 is Rotations, 2 is Counts, round-tripping both ways |
| SmartDevices.BrakeModeFromCode | packages/pros-simulator/src/host/smart_device.rs:147-152 | Codes 0, 1 and 2 are accepted. Anything else is rejected |
| SmartDevices.BrakeModeCode | packages/pros-simulator/src/host/smart_device.rs:147-152 | Each mode has a code in 0..=2 |
| SmartDevices.BrakeModeCodeRoundTrip | packages/pros-simulator/src/host/smart_device.rs:147-152 | 0 is Coast, 1 is Brake, 2 is Hold, round-tripping both ways |
| SmartDevices.Motor.constructor | packages/pros-simulator/src/host/smart_device.rs:105-113 | Default brake mode and units, 0 V, nothing published |
| SmartDevices.Motor.Publish | packages/pros-simulator/src/host/smart_device.rs:115-122 | Sends one `MotorUpdated` with the motor's current state |
| SmartDevices.Motor.SetOutputVolts | packages/pros-simulator/src/host/smart_device.rs:124-132 | Stores the voltage clamped to -127..=127. Sends a warning iff the voltage is below -127, then one `MotorUpdated` |
| SmartDevices.Motor.SetEncoderUnits | packages/pros-simulator/src/host/smart_device.rs:134-144 | An accepted code sets the units and publishes. Otherwise an error, with the units unchanged and nothing sent |
| SmartDevices.Motor.SetBrakeMode | packages/pros-simulator/src/host/smart_device.rs:146-156 | An accepted code sets the mode and publishes. Otherwise an error, with the mode unchanged and nothing sent |
| SmartDevices.SmartDevice.AsMotor | packages/pros-simulator/src/host/smart_device.rs:75-93 | Always succeeds, because a motor is the only kind of device |
| SmartDevices.SmartPorts.constructor | packages/pros-simulator/src/host/smart_device.rs:32-37 | No port is configured |
| SmartDevices.SmartPorts.UpdateSpecs | packages/pros-simulator/src/host/smart_device.rs:39-49 | Every listed port ends with a device of the listed kind. A same-kind device is kept as is, and any other listed port gets a fresh default device. Unlisted ports are untouched |
| SmartDevices.SmartPorts.Get | packages/pros-simulator/src/host/smart_device.rs:51-61 | The device on the port, or `PortNotConfigured` naming the port iff none is configured |
| SmartDevices.UpdateSpecsTwice | packages/pros-simulator/src/host/smart_device.rs:39-49 | `update_specs` is idempotent: a second pass with the same specs changes nothing |
| SystemDaemon.ExportName | packages/pros-simulator/src/system/system_daemon.rs:33-38 | Each user task runs its own export, never `initialize` |
| SystemDaemon.ExportNameInjective | packages/pros-simulator/src/system/system_daemon.rs:33-38 | Different tasks have different export names |
| SystemDaemon.ChooseUserTask | packages/pros-simulator/src/system/system_daemon.rs:99-110 | `CompInit` iff (no earlier phase, or it had no competition controller) and competition and disabled. Otherwise disabled gives `Disabled` and enabled gives `Auton` or `Opcontrol` by the autonomous bit, each an iff |
| SystemDaemon.DisabledPhaseRunsDisabledOrCompInit | packages/pros-simulator/src/system/system_daemon.rs:99-110 | A disabled phase picks `CompInit` or `Disabled`, and an enabled one never does |
| SystemDaemon.PhaseChangeOutcome | packages/pros-simulator/src/system/system_daemon.rs:86-110 | Ignored iff the phase equals the last one, or both are disabled. Otherwise a restart with `ChooseUserTask` |
| SystemDaemon.OutcomesAsWritten | packages/pros-simulator/src/system/system_daemon.rs:50 | One outcome per phase change |
| SystemDaemon.AsWrittenNeverIgnores | packages/pros-simulator/src/system/system_daemon.rs:50-121 | With `last_phase` never assigned, every change restarts the task |
| SystemDaemon.AsWrittenRepeatRestarts | packages/pros-simulator/src/system/system_daemon.rs:86-88 | As written, the same enabled phase sent twice restarts `opcontrol` twice |
| SystemDaemon.Step | packages/pros-simulator/src/system/system_daemon.rs:85-121 | The remembered phase becomes the new one after a restart, and is unchanged when the change is ignored |
| SystemDaemon.StepThenRepeatIgnored | packages/pros-simulator/src/system/system_daemon.rs:86-95 | Once a phase has been handled, the same phase again is ignored |
| SystemDaemon.Outcomes | packages/pros-simulator/src/system/system_daemon.rs:76-121 | One outcome per phase change |
| SystemDaemon.OutcomeAt | packages/pros-simulator/src/system/system_daemon.rs:76-121 | The i-th outcome is judged against the phase remembered after the first i changes |
| SystemDaemon.RepeatedPhaseIgnored | packages/pros-simulator/src/system/system_daemon.rs:86-88 | When the phase is remembered, a change that repeats the previous one is always ignored |
| SystemDaemon.PhasesOf | packages/pros-simulator/src/system/system_daemon.rs:76-85 | Picks out the phase changes of a message queue |
| SystemDaemon.OutcomesOf | packages/pros-simulator/src/system/system_daemon.rs:85-121 | Picks out the phase outcomes among the actions |
| SystemDaemon.SnocParts | packages/pros-simulator/src/system/system_daemon.rs:76-123 | One more message or action extends the phases or outcomes by its own part |
| SystemDaemon.SnocPhase | packages/pros-simulator/src/system/system_daemon.rs:85-121 | One more phase change extends the outcomes by one, and moves the remembered phase one `Step` |
| SystemDaemon.DrainStep | packages/pros-simulator/src/system/system_daemon.rs:76-123 | One turn of the message loop keeps the outcomes and the remembered phase in step with the specification |
| SystemDaemon.Daemon.constructor | packages/pros-simulator/src/system/system_daemon.rs:50-62 | No phase is known yet, and `initialize` is the competition task |
| SystemDaemon.Daemon.HandleMessage | packages/pros-simulator/src/system/system_daemon.rs:77-121 | A controller update is forwarded unchanged to `Controllers::update`. A phase change is ignored or restarts the task, deleting the previous one iff it is ready. Any other message leaves the controllers' contents alone. The competition task follows the recorded outcome. As intended: the phase acted on is remembered |
| SystemDaemon.Daemon.DrainMessages | packages/pros-simulator/src/system/system_daemon.rs:76-123 | As intended: handling the queue in order yields exactly `Outcomes` for its phase changes and leaves `Recorded` as the remembered phase. The competition task ends as that of the last restart, else the starting one. Each controller ends as the `UpdateSlot` fold of the controller updates, in order |
| SystemDaemon.SlotAfter | packages/pros-simulator/src/system/system_daemon.rs:78-81 | The controller slot after a run of messages: one `UpdateSlot` per controller update |
| SystemDaemon.TaskAfterLastRestart | packages/pros-simulator/src/system/system_daemon.rs:111-121 | The competition task after a run of outcomes is that of the last restart. With no restart it is the starting one |
| SystemDaemon.TaskAfterAppend | packages/pros-simulator/src/system/system_daemon.rs:76-123 | Two stretches of outcomes in turn give the same task as their concatenation |
| SystemDaemon.SlotStep | packages/pros-simulator/src/system/system_daemon.rs:78-81 | One more message moves a slot by its own controller update, if it is one |
| SystemDaemon.ControllersTurn | packages/pros-simulator/src/system/system_daemon.rs:76-81 | One turn of the message loop keeps both controller slots equal to the `SlotAfter` fold of the messages handled so far |
| SystemDaemon.TaskStep | packages/pros-simulator/src/system/system_daemon.rs:83-121 | One more action moves the competition task by the outcome it records |

## Findings

| source | as written | input that shows it | evidently intended | confidence | as-written member | corrected member |
|---|---|---|---|---|---|---|
| packages/pros-simulator/src/api/misc.rs:73-84 | The handler returns `i32::from(res.unwrap_or_errno(..))`. That says whether the id was valid, not whether the controller is connected | `controller_is_connected(E_CONTROLLER_PARTNER)` with no partner controller answers 1 | 1 only when `Controllers::is_connected` says the controller is present | not executed; high | MiscApi.ControllerIsConnectedAsWritten | MiscApi.ControllerIsConnected |
| packages/pros-simulator/src/system/system_daemon.rs:50-121 | `last_phase` starts as `None` and is never assigned. Both ignore-guards (lines 86-95) are dead, and `CompInit` is chosen for any disabled competition phase | Two identical `PhaseChange` messages (enabled, not autonomous, no competition) restart `opcontrol` twice | Remember the phase that was acted on, so that a repeat, or a change between two disabled phases, is ignored | not executed; medium | SystemDaemon.AsWrittenRepeatRestarts | SystemDaemon.RepeatedPhaseIgnored, SystemDaemon.Daemon.HandleMessage, SystemDaemon.Daemon.DrainMessages |

## Left out

- **Runtime plumbing:**
  - WebAssembly linking, instantiation and the async runtime are left out: futures, polling, locks, `Task::start` and `yield_now`. These are foreign calls into wasmtime and tokio.
  - `run_to_completion` takes each poll's readiness as an input, since polling runs the robot code's futures.
- **Allocator and clock:**
  - The sandbox allocator (`memalign`) is an input address to every member that may allocate. Any memory the allocator itself writes is not modelled.
  - `start_time` and other clock reads are not modelled.
- **String and display handling:**
  - `read_c_str` checks that the text is valid UTF-8 and panics if it is not. Text here is a byte sequence, so that panic is not modelled.
  - `Lcd::draw` (terminal output) is not modelled.
- **Callbacks and entry points:**
  - `Lcd::press` and `set_btn_press_callback` do not exist in the display files of this model. The daemon only forwards the button message, and the registrars are modelled only by their names.
  - The daemon does not model waiting for `initialize` to finish, the callback table, or how tasks are created: `TaskOptions`, `delete_task` and `spawn`. The competition task is modelled by the entry point it runs, and deletion by a flag.
- **Host functions not modelled:**
  - `competition_get_status`: `CompetitionPhaseExt::as_bits` is not part of this model.
  - The `motors.rs` handler, which ignores its arguments, is not modelled.
  - `generic_io.rs`, `rtos_facilities.rs`, both mutex pools and `src/host/multitasking.rs` are concurrency, clock and process glue, and are not modelled. The mutex pool is only its set of handles, which starts empty.
- **Assumed values:**
  - The `Default` brake mode and encoder units are taken as `Coast` and `Degrees`, because the enum declarations are not part of this model.
  - `Host`'s `smart_ports` default is taken as an empty port table on the host's own event channel.
- **Competition phase:** no modelled code writes the host's competition phase, so the three `competition_is_*` queries read the phase the host holds.
- Tasks.TaskPool.RunToCompletion: a poll is modelled as not creating, deleting or re-prioritising tasks. In the program, the polled robot code can spawn tasks (`task_create`, and the daemon's `initialize` and competition tasks) or delete them (`task_delete`) while it runs, so the pool can then end with ids the start pool never held. The contract covers only runs in which no poll does that.
- Tasks.TaskPool.Spawn: task ids are unbounded naturals, so a `u32` overflow of `newest_task_id` is not modelled.
- ThreadLocal.TaskStorage.GetAddress: the sum wraps modulo 2^32 as in a release build. A debug build's overflow panic is not modelled, and can only happen for a block that does not fit in memory.
