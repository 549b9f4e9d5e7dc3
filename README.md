# RPCExp device polling engine, loggers and configuration store

RPCExp is a gateway. It polls industrial devices over Modbus and serves their tag
values over JSON-RPC. This project models and proves the gateway's core:

- **Tags and scheduling.** A tag's poll period is the smallest period of its polling
  groups, or one second when it has no group. A tag is active when any of its
  groups is active. `DeviceAbstract.NeedToUpdate` picks the tags due within a
  one-second horizon and the next deadline. The service loop clamps the wait to
  1 ms .. 5 s and halves long waits.
- **The read-side device queries.** `GetTagsValues`, `GetGroupValues`,
  `GetGroupInfos` and `GetTagsGroups`.
- **The Modbus device** (`ModbusDevice`). It keeps a shared converter table that is
  rebuilt when the byte order changes. It puts the due tags into four region
  groups and reads their windows in the order coils, discrete inputs, input
  registers, holding registers. Discrete inputs are read with the coil function,
  as the code does. A failed window sets `null` and `BAD` on its own tags only.
  A write packs holding-register windows through a 32-byte scratch buffer and
  fills coil windows. `IOUpdate` runs the `forceRead` / reconnect state machine.
- **The older device** (`Common/Device.cs`). It has its own due selection, its own
  `groupNextUpdate` deadline and window readers that only set the quality on
  failure. Its service loop forces the first pass and marks every tag
  `BAD_COMM_FAILURE` when the connection fails.
- **The archive deadband** (`TagLogConfig.NeedToArcive`). It is a small state
  machine over the last archived value and time, with exact decimal values.
- **The two log services** (`TagLogService` and `AlarmService`). Each has a cache
  flush rule and a sleep between checks. The tag log drains its queue in insert
  batches of at most 128 rows. Both purge the table and schedule maintenance.
  At start, the alarm service finds or creates each alarm's category and info.
  Each service reads its table back through a filter, with pagination.
- **The configuration store and serialisers.** `GetOrCreate` finds or creates an
  entity. Device and tag configurations are packed into stored entities and
  unpacked back. The Modbus part of each is a JSON object of a few keys.
  `ArchiveCfg.CopyFrom` copies archive settings.

Time is a parameter `now`, in ticks of 100 ns. The transport, the window slicer
and the value converters are function parameters. Each comes with the contract
the device code relies on: a reply has the requested size, and a window holds
only members it covers. The databases are sequences of rows in store order.

Modules: `Wrappers`, `Numeric`, `Sequences`, `Tags`, `Scheduler`,
`DeviceQueries`, `Windows`, `ModbusPolling`, `ModbusWriting`, `Modbus`, `Legacy`,
`TagLog`, `Retention`, `TagLogger`, `AlarmLogger`, `Store`, `ArchiveConfig`,
`Serializers`.

Where the code and its descriptions disagree, the model follows the code:

- discrete inputs are read with the coil function;
- `Hyst` is an absolute difference, although its comment calls it a percentage of the scale;
- coil write values are filled in member order, not by address offset.

`ModbusWriting.CoilGapMisplaces` shows what that last point does to a window with a gap.

Two defects of the code are modelled both ways (see Findings), and the class uses the
intended behaviour:

- the `TagLogConfig` constructor's group test is inverted. The code as written is
  `TagLog.AttachAsWritten`; the class `TagLog.TagLogConfig` uses the intended test, `TagLog.Attach`;
- the archive periods are converted to ticks with a 32-bit product that wraps. The code as
  written is `TagLog.StepAsWritten`; the class uses the exact conversion, `TagLog.Step`.

## Model

| member | source | states |
|---|---|---|
| Sequences.Skip | RPCExp/TagLogger/TagLogService.cs:271 | LINQ `Skip(n)`: a negative count skips nothing, and a count past the end leaves nothing |
| Sequences.Take | RPCExp/TagLogger/TagLogService.cs:271 | LINQ `Take(n)`: a non-positive count gives nothing, and a count past the end gives everything |
| Sequences.PageSlice | RPCExp/TagLogger/TagLogService.cs:271 | a page holds at most `count` rows, all of them from the input; a page inside the input is the slice `[offset, offset + count)` |
| Sequences.FindFirst | RPCExp/DbStore/Entities/StoreContext.cs:99 | `FirstOrDefault`: the first position that satisfies the predicate, or none when no element does |
| Numeric.TruncDiv | RPCExp/TagLogger/TagLogService.cs:45 | C# integer division: the remainder has the sign of the dividend and is smaller than the divisor, so the quotient rounds toward zero for negative operands too |
| Numeric.Wrap32 | RPCExp/TagLogger/TagLogConfig.cs:58-65 | a 32-bit `int` result: congruent to the exact value modulo 2^32, and equal to it when that value fits |
| Tags.MinPeriod | RPCExp/Common/TagAbstract.cs:46 | `Groups.Values.Min(s => s.Period)`: a lower bound of every group's period, and equal to one of them |
| Tags.Period | RPCExp/Common/TagAbstract.cs:11-48 | `DefaultPeriod` (one second) for `null` or empty groups, otherwise the smallest group period |
| Tags.AnyActive | RPCExp/Common/TagAbstract.cs:55-58 | the early-return loop is true iff some group is active |
| Tags.IsActive | RPCExp/Common/TagAbstract.cs:53-60 | throws (`None`) exactly on `null` groups; false for no groups; otherwise true iff some group is active |
| Tags.MinPeriodIgnoresActivity | RPCExp/Common/TagAbstract.cs:46 | groups that differ only in their active flags have the same minimum period |
| Tags.PeriodIgnoresActivity | RPCExp/Common/TagAbstract.cs:43-48 | `Period` does not depend on whether the groups are active |
| Tags.NullGroupsPeriodButNoActivity | RPCExp/Common/TagAbstract.cs:44-55 | `Period` tolerates `null` groups, while `IsActive` throws on them |
| Tags.SetValue | RPCExp/Modbus/ModbusDevice.cs:83-89 | `SetValue(value, quality)` changes only the tag's state: the value, the quality, and the last-update time `now` |
| Scheduler.EffectivePeriod | RPCExp/Common/DeviceAbstract.cs:43-48 | the tag's `Period` when GOOD, else `BadCommWaitPeriod`; replaced by `UpdateInActiveTagsPeriod` for an inactive tag when inactive refresh is on |
| Scheduler.DuePrefixMembers | RPCExp/Common/DeviceAbstract.cs:36-65 | the returned positions increase strictly, so there are no duplicates, and they are exactly the returned tags |
| Scheduler.NextTimeBounds | RPCExp/Common/DeviceAbstract.cs:35-64 | `nextTime <= now + BadCommWaitPeriod`, and it is at most the candidate deadline of every considered tag |
| Scheduler.NextTimeAttained | RPCExp/Common/DeviceAbstract.cs:35-64 | `nextTime` is `now + BadCommWaitPeriod` or the candidate deadline of some considered tag |
| Scheduler.SkippedTagsIrrelevant | RPCExp/Common/DeviceAbstract.cs:40-41 | tags skipped by a non-forced pass affect neither the returned list nor `nextTime` |
| Scheduler.InactiveNeverReturned | RPCExp/Common/DeviceAbstract.cs:40-41 | a tag that is inactive while inactive refresh is off is neither considered nor returned by a non-forced pass |
| Scheduler.PassFacts | RPCExp/Common/DeviceAbstract.cs:31-69 | the properties of a whole pass: duplicate-free due list, exactly the returned tags, and the deadline bounds for pending and due tags |
| Scheduler.ScanStep | RPCExp/Common/DeviceAbstract.cs:38-66 | one more tag scanned extends the due list by that tag when it is returned, and lowers the deadline by its candidate when it is considered |
| Scheduler.ScanTag | RPCExp/Common/DeviceAbstract.cs:40-65 | one tag's scan throws exactly when the tag has `null` groups (`IsActive` is read first); otherwise the tag is returned exactly when `Returned` holds, and the deadline drops to the tag's candidate tick only when the tag is considered and that tick is earlier |
| Scheduler.NeedToUpdate | RPCExp/Common/DeviceAbstract.cs:31-69 | the loop throws exactly when some tag has `null` groups; otherwise it returns the strictly increasing positions of exactly the returned tags, all of them when forced; `nextTime <= now + BadCommWaitPeriod`, `<= Last + period` for pending tags and `<= now + period` for due ones |
| Scheduler.ClampWait | RPCExp/Common/DeviceAbstract.cs:87-91 | the wait lies in [10_000, 50_000_000] ticks: an in-range wait is kept, one in (50M, 100M] is halved, a larger one becomes 50M, and a small or negative one becomes 10_000 |
| Scheduler.DelayMs | RPCExp/Common/DeviceAbstract.cs:87-93 | the `Task.Delay` argument is the clamped wait in milliseconds, between 1 and 5000 |
| DeviceQueries.Find | RPCExp/Common/DeviceAbstract.cs:155-157 | `Tags.ContainsKey(name)` / `Tags[name]`: a position with that name, or none when no tag has it |
| DeviceQueries.FindUnique | RPCExp/Common/DeviceAbstract.cs:155-157 | with names unique (dictionary keys), the lookup finds the one tag of that name |
| DeviceQueries.GetTagsValues | RPCExp/Common/DeviceAbstract.cs:144-164 | `null` input gives an empty list; otherwise one entry per requested name, in order: the tag's state for a known name, `null` for an unknown one |
| DeviceQueries.GroupMembers | RPCExp/Common/DeviceAbstract.cs:131-133 | the tags whose `Groups` is set and contains the name: strictly increasing positions, and exactly those tags |
| DeviceQueries.GetGroupValues | RPCExp/Common/DeviceAbstract.cs:121-134 | `null` exactly for an unknown group name; a throw exactly when the group is known and some tag has `null` groups; otherwise the states of exactly the group's tags, in order |
| DeviceQueries.GroupNames | RPCExp/Common/DeviceAbstract.cs:75 | the names of a tag's groups, in order |
| DeviceQueries.GetGroupInfos | RPCExp/Common/DeviceAbstract.cs:106-111 | a throw exactly when some tag has `null` groups; otherwise the `GetInfo` of exactly the tags in the group, in order, without checking that the group exists |
| DeviceQueries.GetTagsGroups | RPCExp/Common/DeviceAbstract.cs:71-77 | a throw exactly when some tag has `null` groups; otherwise a map with every tag name as a key, each mapped to the names of that tag's groups |
| Windows.Code | RPCExp/Modbus/ModbusDevice.cs:62-266 | the Modbus function codes used (Modbus Application Protocol Specification V1.1b3, sections 6.1-6.4, 6.11 and 6.12): the four reads have the codes 1 to 4, the two writes codes above 4 and at most 16 |
| Windows.CodeInjective | RPCExp/Modbus/ModbusDevice.cs:62-266 | no two of the six functions share a code |
| Windows.ReadRequests | RPCExp/Modbus/ModbusDevice.cs:190-200 | one read request per window, in window order, with the window's start and length |
| Windows.WordBytes | RPCExp/Modbus/ModbusDevice.cs:100-104 | the register buffer has `2·Length` bytes, with word k as little-endian bytes 2k and 2k+1 |
| Windows.WordBytesRoundTrip | RPCExp/Modbus/ModbusDevice.cs:100-104 | reading word k back from the buffer (`BitConverter.ToUInt16`) gives register k |
| Windows.UnpackWords | RPCExp/Modbus/ModbusDevice.cs:100-104 | the `GetBytes(...).CopyTo(buff, 2k)` loop builds exactly `WordBytes` of the reply |
| Windows.Overwrite | RPCExp/Modbus/ModbusDevice.cs:106-111 | a per-window `foreach (var t in g)` update changes exactly the window's members |
| ModbusPolling.FullTable | RPCExp/Modbus/ModbusDevice.cs:28-33 | `UpdateTypeConverters` builds a table holding exactly Float, Int16 and Int32, each with the device's byte order |
| ModbusPolling.StableLookup | RPCExp/Modbus/ModbusDevice.cs:35-41 | during a pass that has not missed yet, a supported type is found in the table, or the table was empty and is refilled with the device's byte order |
| ModbusPolling.FirstUnconvertible | RPCExp/Modbus/ModbusDevice.cs:35-41 | the position of the first window member whose type has no converter (where `GetTypeConverter` throws), or the member count |
| ModbusPolling.ReadFunction | RPCExp/Modbus/ModbusDevice.cs:60-153 | register regions use register reads and bit regions use bit reads; the discrete-input function is never used |
| ModbusPolling.ReadWindow | RPCExp/Modbus/ModbusDevice.cs:60-153 | one window read sends its request and changes only its members; the table is kept or rebuilt; the pass throws exactly when a holding-register reply has a member whose type has no converter; a thrown pass reads nothing |
| ModbusPolling.ReadWindowMembers | RPCExp/Modbus/ModbusDevice.cs:60-153 | per reply: a failed or wrong-kind reply, or an input window that throws, marks the members BAD; a register reply decodes every member from offset `2·(t.Begin − g.Begin)` and leaves the table as `TableAfterLookups`; a holding window that throws keeps the values of the members decoded before it; a bit reply sets `data[t.Begin − g.Begin]` |
| ModbusPolling.RegisterWindowRead | RPCExp/Modbus/ModbusDevice.cs:60-118 | a register reply: changes only the window's members, keeps or rebuilds the table, and throws exactly for a holding window with an unconvertible member |
| ModbusPolling.FailedWindowAbsorbs | RPCExp/Modbus/ModbusDevice.cs:97-117 | marking an input window BAD after the catch erases whatever its decoding loop had already set |
| ModbusPolling.ReadAllFrame | RPCExp/Modbus/ModbusDevice.cs:190-200 | reading a region's windows changes only runtime state, and only of tags in some window |
| ModbusPolling.ReadAllStops | RPCExp/Modbus/ModbusDevice.cs:190-200 | once a window has thrown, the remaining windows of the region are not read |
| ModbusPolling.ReadAllSentAll | RPCExp/Modbus/ModbusDevice.cs:190-200 | a region read that does not throw sends one request per window, in order |
| ModbusPolling.ReadAllSentPrefix | RPCExp/Modbus/ModbusDevice.cs:190-200 | the requests of a region read are a prefix of one request per window |
| ModbusPolling.ReadAllThrows | RPCExp/Modbus/ModbusDevice.cs:60-92 | a region read throws only for holding registers, and only when some window member has no converter |
| ModbusPolling.RegionMembersSpec | RPCExp/Modbus/ModbusDevice.cs:165-184 | a region's group holds exactly the due tags of that region |
| ModbusPolling.PartitionExact | RPCExp/Modbus/ModbusDevice.cs:165-184 | every due tag is in the group of its own region and in no other |
| ModbusPolling.RegionWindowsFit | RPCExp/Modbus/ModbusDevice.cs:190-200 | the sliced windows of a region hold only due tags of that region, and cover them |
| ModbusPolling.PolledOnlyDue | RPCExp/Modbus/ModbusDevice.cs:156-204 | a pass changes only the runtime state of due tags, and leaves the shared table as it was or rebuilt |
| ModbusPolling.PolledSent | RPCExp/Modbus/ModbusDevice.cs:186-201 | the requests of a pass are a prefix of `PlannedRequests`, and all of it when the pass does not throw |
| ModbusPolling.PolledThrows | RPCExp/Modbus/ModbusDevice.cs:60-92 | a pass throws only when a due holding-register tag has a type without converter |
| ModbusPolling.PlannedRequestsRead | RPCExp/Modbus/ModbusDevice.cs:186-201 | every request of a pass is a read that never uses the discrete-input function; nothing due means no I/O |
| ModbusPolling.CommFailed | RPCExp/Modbus/ModbusDevice.cs:292-293 | after a failed connect every tag has no value and quality `BAD_COMM_FAILURE`, and its configuration is kept |
| ModbusPolling.CommFailureBacksOff | RPCExp/Modbus/ModbusDevice.cs:288-294 | a tag failed at `now` keeps its groups and is next due `BadCommWaitPeriod` later; unless it is inactive with inactive refresh on, no non-forced pass earlier than one horizon before that returns it |
| Modbus.ConverterTable.constructor | RPCExp/Modbus/ModbusDevice.cs:26 | the shared table starts empty |
| Modbus.ModbusDevice.constructor | RPCExp/Modbus/ModbusDevice.cs:20-58 | a new device: `forceRead` set, byte order {2,3,0,1}, frame type Ip, the given tags, policy and slave id; any tags with unique names are accepted |
| Modbus.ModbusDevice.UpdateTypeConverters | RPCExp/Modbus/ModbusDevice.cs:28-33 | the shared table becomes `FullTable` of the device's byte order |
| Modbus.ModbusDevice.SetByteOrder | RPCExp/Modbus/ModbusDevice.cs:48-54 | the setter stores the order and rebuilds the table for it |
| Modbus.ModbusDevice.GetTypeConverter | RPCExp/Modbus/ModbusDevice.cs:35-41 | a cached key returns its converter and leaves the table alone; otherwise the table is rebuilt, and the lookup succeeds iff the type is Float, Int16 or Int32 |
| Modbus.ModbusDevice.ConverterOf | RPCExp/Modbus/ModbusDevice.cs:35-41 | `GetTypeConverter` within a pass or write that has not missed: a supported type yields the converter of the table the pass started with; any other type throws, leaving the table rebuilt |
| Modbus.ModbusDevice.MarkWindowFailed | RPCExp/Modbus/ModbusDevice.cs:86-90 | the failure branch: `SetValue(null, BAD)` on exactly the window's tags (`FailedWindow`) |
| Modbus.ModbusDevice.DecodeMember | RPCExp/Modbus/ModbusDevice.cs:106-111 | one turn of the decoding loop: the tag is decoded with the pass's converter exactly when its type has one; otherwise it throws with the table rebuilt and the tag unchanged |
| Modbus.ModbusDevice.DecodeMembers | RPCExp/Modbus/ModbusDevice.cs:106-111 | the decoding loop decodes exactly the members before `FirstUnconvertible` and leaves the table as `TableAfterLookups` |
| Modbus.ModbusDevice.ReadRegisterWindow | RPCExp/Modbus/ModbusDevice.cs:60-118 | `UpdateHoldingRegisters` / `UpdateInputRegisters` send the window's read request and end in exactly the state `ReadWindow` describes, including the caught throw of an input window and the escaping throw of a holding window |
| Modbus.ModbusDevice.ReadBitWindow | RPCExp/Modbus/ModbusDevice.cs:120-153 | `UpdateCoils` / `UpdateDiscreteInputs` send a coil read and end in exactly the state `ReadWindow` describes |
| Modbus.ModbusDevice.ReadOneWindow | RPCExp/Modbus/ModbusDevice.cs:190-200 | one window of a region, read by the reader of its kind, ends as `ReadWindow` describes |
| Modbus.ModbusDevice.DeliverBits | RPCExp/Modbus/ModbusDevice.cs:126-131 | each member gets the bit at its offset, quality GOOD; no other tag changes |
| Modbus.ModbusDevice.ReadWindows | RPCExp/Modbus/ModbusDevice.cs:190-200 | a region's windows are read in order until one throws: requests, tags, table and throw as `ReadAll` describes |
| Modbus.ModbusDevice.GroupByRegion | RPCExp/Modbus/ModbusDevice.cs:165-184 | the `switch` puts each listed tag into its region's group, in list order |
| Modbus.ModbusDevice.ReadRegions | RPCExp/Modbus/ModbusDevice.cs:186-201 | the four loops read coil, discrete-input, input-register and holding-register windows, in that order, ending as the four `ReadAll`s describe |
| Modbus.ModbusDevice.PollDue | RPCExp/Modbus/ModbusDevice.cs:160-201 | the I/O half of `Update` ends in exactly the tags, table, requests and throw of `Polled` for the due tags |
| Modbus.ModbusDevice.Update | RPCExp/Modbus/ModbusDevice.cs:156-204 | throws before any I/O when a tag has `null` groups; otherwise returns the scheduler's `nextTime` and polls exactly the scheduler's due tags as `Polled` describes, throwing where it throws |
| Modbus.ModbusDevice.CopyBytes | RPCExp/Modbus/ModbusDevice.cs:251 | `tc.GetBytes(buff, v)` overwrites the front of the scratch buffer with the encoding |
| Modbus.ModbusDevice.PutRegisterWords | RPCExp/Modbus/ModbusDevice.cs:252-254 | `values[b + i] = ToUInt16(buff, 2i)` for the tag's registers |
| Modbus.ModbusDevice.PackInto | RPCExp/Modbus/ModbusDevice.cs:246-255 | one tag of a register window: the encoding goes into the scratch buffer, and its words into the payload |
| Modbus.ModbusDevice.PackTag | RPCExp/Modbus/ModbusDevice.cs:246-255 | the loop body for member k extends `PackPrefix` by one member, or the window throws: missing value, type without converter, encoding over 32 bytes or more than 16 registers |
| Modbus.ModbusDevice.PackRegisters | RPCExp/Modbus/ModbusDevice.cs:241-258 | the payload of a holding-register window is `PackPrefix` over all its members, and `None` where `Write` throws; the table is kept or rebuilt |
| Modbus.ModbusDevice.CoilValues | RPCExp/Modbus/ModbusDevice.cs:262-265 | the coil payload is `CoilPrefix` over all members, filled in member order |
| Modbus.ModbusDevice.WriteRegisterWindows | RPCExp/Modbus/ModbusDevice.cs:241-258 | register windows are packed and sent one by one, stopping at a throw or a failed write (`Issue` of `RegisterPlan`) |
| Modbus.ModbusDevice.WriteCoilWindows | RPCExp/Modbus/ModbusDevice.cs:260-267 | coil windows are filled and sent one by one (`Issue` of `CoilPlan`) |
| Modbus.ModbusDevice.Write | RPCExp/Modbus/ModbusDevice.cs:211-272 | known names only, holding registers first and then coils; returns 0 when every write went through; the shared table is kept or rebuilt |
| Modbus.ModbusDevice.MarkCommFailure | RPCExp/Modbus/ModbusDevice.cs:292-293 | every tag becomes `CommFailed`: no value, `BAD_COMM_FAILURE` |
| Modbus.ModbusDevice.IOUpdate | RPCExp/Modbus/ModbusDevice.cs:274-297 | open: `Update(forceRead)`; when it throws, `forceRead` keeps its previous value (false after an earlier successful pass), otherwise `forceRead` is cleared and the pass succeeds; closed: `forceRead` set, and `(0, false)` after a reconnect or every tag failed and `now + BadCommWaitPeriod` otherwise |
| ModbusWriting.Lookup | RPCExp/Modbus/ModbusDevice.cs:248 | `tagsValues[name]`: the value given for that name, or none |
| ModbusWriting.Selected | RPCExp/Modbus/ModbusDevice.cs:214-217 | the tags a write addresses: the known names of the request, in request order |
| ModbusWriting.SelectedSpec | RPCExp/Modbus/ModbusDevice.cs:214-217 | unknown names are ignored; every known name selects its tag, which has a value to write |
| ModbusWriting.PutWords | RPCExp/Modbus/ModbusDevice.cs:252-254 | the tag's registers are overwritten with scratch words, and no other register changes |
| ModbusWriting.PackPrefix | RPCExp/Modbus/ModbusDevice.cs:243-255 | while packing succeeds, the payload is as long as the window and the scratch buffer stays 32 bytes |
| ModbusWriting.PackNext | RPCExp/Modbus/ModbusDevice.cs:246-255 | one more tag: it packs exactly when it is `Packable`; its encoding replaces the front of the scratch buffer, and its registers are copied from there |
| ModbusWriting.EncodedFor | RPCExp/Modbus/ModbusDevice.cs:248-251 | the encoding exists exactly when the name has a value and the type has a converter |
| ModbusWriting.PackPrefixSome | RPCExp/Modbus/ModbusDevice.cs:246-255 | packing the first n members succeeds exactly when each of them is a `Packable` tag |
| ModbusWriting.PackStep | RPCExp/Modbus/ModbusDevice.cs:246-255 | a member with a value whose encoding fits continues packing with those bytes |
| ModbusWriting.PackThrows | RPCExp/Modbus/ModbusDevice.cs:248-254 | a member with no value, a type without converter, an encoding longer than 32 bytes or more than 16 registers makes the whole window throw |
| ModbusWriting.PackStaysNone | RPCExp/Modbus/ModbusDevice.cs:246-255 | once packing has thrown it stays thrown |
| ModbusWriting.PackGapsZero | RPCExp/Modbus/ModbusDevice.cs:243-254 | registers of the window that belong to no member are written as 0 |
| ModbusWriting.PackMemberWords | RPCExp/Modbus/ModbusDevice.cs:252-254 | register `b + i` of member k holds word i of its encoding, unless a later member overwrote it |
| ModbusWriting.CoilPrefix | RPCExp/Modbus/ModbusDevice.cs:262-265 | while filling succeeds, the coil payload has one entry per coil of the window |
| ModbusWriting.CoilStaysNone | RPCExp/Modbus/ModbusDevice.cs:262-265 | once filling the coil payload has thrown it stays thrown |
| ModbusWriting.CoilPositional | RPCExp/Modbus/ModbusDevice.cs:262-265 | the value of member k lands at payload position k, whatever its address; the rest is false |
| ModbusWriting.CoilContiguous | RPCExp/Modbus/ModbusDevice.cs:262-265 | when the members are consecutive coils, each value lands on its own coil |
| ModbusWriting.CoilGapMisplaces | RPCExp/Modbus/ModbusDevice.cs:262-265 | with a gap, the second value is written to the gap and its own coil gets false |
| ModbusWriting.RegisterPlan | RPCExp/Modbus/ModbusDevice.cs:241-258 | one `WriteMultipleRegisters` per holding-register window |
| ModbusWriting.CoilPlan | RPCExp/Modbus/ModbusDevice.cs:260-267 | one `WriteMultipleCoils` per coil window |
| ModbusWriting.PlannedWrites | RPCExp/Modbus/ModbusDevice.cs:219-267 | nothing is written when no name is known; otherwise the holding-register writes, then the coil writes |
| ModbusWriting.IssueSpec | RPCExp/Modbus/ModbusDevice.cs:241-270 | the writes sent are a prefix of the plan, all acknowledged except possibly the last; the result is 0 exactly when all went through |
| ModbusWriting.IssueStopsAt | RPCExp/Modbus/ModbusDevice.cs:241-270 | sending stops at the first write that throws or fails |
| ModbusWriting.IssueAppend | RPCExp/Modbus/ModbusDevice.cs:241-267 | the coil loop runs only after every register write went through |
| Legacy.ServicedExactly | RPCExp/Common/Device.cs:160-178 | the tags read are exactly the forced ones, or the active ones due within `now + 1 s`; each is read once, in order, and a forced pass reads all |
| Legacy.GroupNextSpec | RPCExp/Common/Device.cs:151-176 | `groupNextUpdate` is at most every pending tag's next tick, and is one of them or `long.MaxValue` |
| Legacy.GroupNextBeyondHorizon | RPCExp/Common/Device.cs:169-172 | the deadline is `long.MaxValue` or beyond the horizon, so due tags never lower it |
| Legacy.RegionGroupSpec | RPCExp/Common/Device.cs:180-196 | a region's group holds exactly the counted tags of that region |
| Legacy.SelectStep | RPCExp/Common/Device.cs:160-197 | one more tag looked at extends the counted list and the deadline as the loop body does |
| Legacy.BitBytes | RPCExp/Common/Device.cs:124-139 | a bit is handed over as the single byte 0xff when set, 0x00 when clear |
| Legacy.ReadWindow | RPCExp/Common/Device.cs:75-146 | one window read changes only its members: on failure only the quality (`BAD`); registers from offset `2·(t.Begin − g.Begin)`; bits as 0xff/0x00 |
| Legacy.ReadAllFrame | RPCExp/Common/Device.cs:201-211 | reading windows changes only state, and only of tags in some window |
| Legacy.RegionWindowsFit | RPCExp/Common/Device.cs:201-211 | the windows of a region hold only counted tags of that region, and cover them |
| Legacy.PolledOnlyServiced | RPCExp/Common/Device.cs:199-212 | a pass changes only the state of the tags it counted |
| Legacy.AllWithQuality | RPCExp/Common/Device.cs:68-69 | `SetQty(q)` on every tag changes only the quality |
| Legacy.LegacyClamp | RPCExp/Common/Device.cs:59-62 | the older clamp, without the step for negative waits, agrees with `ClampWait` and stays in [10_000, 50_000_000] |
| Legacy.Device.constructor | RPCExp/Common/Device.cs:13-25 | a device over its tags, with `BadCommWaitPeriod` 10 s |
| Legacy.Device.Select | RPCExp/Common/Device.cs:150-197 | the selection loop: `count` is the number of serviced tags, `groupNextUpdate` is `GroupNext`, and the four groups are the region groups |
| Legacy.Device.MarkWindowBad | RPCExp/Common/Device.cs:89-93 | the catch branch: `SetQty(BAD)` on exactly the window's tags |
| Legacy.Device.DeliverRegisters | RPCExp/Common/Device.cs:86-87 | each member takes the buffer from its own offset on, GOOD and stamped |
| Legacy.Device.DeliverBits | RPCExp/Common/Device.cs:123-124 | each member takes 0xff or 0x00 for the bit at its offset |
| Legacy.Device.ReadOneWindow | RPCExp/Common/Device.cs:75-146 | one window reader sends its request and leaves the tags as `ReadWindow` describes |
| Legacy.Device.ReadWindows | RPCExp/Common/Device.cs:201-211 | a region's windows are read in order, one request each |
| Legacy.Device.Update | RPCExp/Common/Device.cs:148-215 | returns `GroupNext` for the horizon `now + 1 s`; the requests are those planned for the counted tags, and the tags are those tags polled |
| Legacy.Device.MarkCommFailure | RPCExp/Common/Device.cs:68-69 | every tag's quality becomes `BAD_COMM_FAILURE` |
| Legacy.Device.ServicePass | RPCExp/Common/Device.cs:53-72 | connected: `Update` is forced iff `nextTime == 0`, the wait is the clamp, and the next deadline is positive so the next pass is not forced; otherwise no I/O, every tag is marked and the wait is `BadCommWaitPeriod` |
| TagLog.AddByName | RPCExp/TagLogger/TagLogConfig.cs:47 | afterwards the tag has a group of that name; groups of other names are kept, and nothing else is added |
| TagLog.AttachAsWrittenMissesGroup | RPCExp/TagLogger/TagLogConfig.cs:46-47 | as written, any tag with groups but without the log group is left unchanged, outside it, where the intended `Attach` adds it |
| TagLog.Attach | RPCExp/TagLogger/TagLogConfig.cs:42-48 | throws on a `null` tag or `null` groups; otherwise the tag has the log group afterwards and keeps every group it had |
| TagLog.AsDecimal | RPCExp/TagLogger/TagLogConfig.cs:62 | `Convert.ChangeType(Tag?.Value ?? 0, decimal)`: `null` is 0, and the conversion throws exactly on text |
| TagLog.MaxPeriodWraps | RPCExp/TagLogger/TagLogConfig.cs:58-66 | `600 * 10_000_000` in 32-bit arithmetic is 1_705_032_704, so an unchanged value is archived after about 170 s instead of 600 s |
| TagLog.StepGuards | RPCExp/TagLogger/TagLogConfig.cs:54-79 | nothing is archived or remembered unless the tag is GOOD and the minimum period has passed; without a record nothing changes |
| TagLog.StepArchivesOnChangeOrAge | RPCExp/TagLogger/TagLogConfig.cs:65-76 | past the minimum period, a record is made iff the maximum period passed or `abs(lastVal − val) >= Hyst`; it carries `now` and `val`, which are remembered |
| TagLog.RecordsSpaced | RPCExp/TagLogger/TagLogConfig.cs:58-69 | two successive records are more than `PeriodMinSec` apart |
| TagLog.SameInstantSilent | RPCExp/TagLogger/TagLogConfig.cs:58-69 | a second call at the same instant records nothing |
| TagLog.TagLogConfig.constructor | RPCExp/TagLogger/TagLogConfig.cs:11-48 | defaults `Hyst` 0.10, max 600 s, min 1 s, last value 0 at time 0; the tag is registered as `Attach` does |
| TagLog.TagLogConfig.NeedToArchive | RPCExp/TagLogger/TagLogConfig.cs:50-81 | the getter's result and the new `lastVal`/`lastTime` are those of `Step` |
| Retention.DeltaIsOneTwentieth | RPCExp/TagLogger/TagLogService.cs:45 | `1 + S·5/100` is one more than `S/20` rounded down, between 1 and `S + 1` |
| Retention.RemoveCount | RPCExp/TagLogger/TagLogService.cs:129-132 | the remove count is clamped into [0, `int.MaxValue`] |
| Retention.Purged | RPCExp/TagLogger/TagLogService.cs:134-136 | `Take(ctr)` then `RemoveRange` removes the first `ctr` rows in store order, and keeps the rest |
| Retention.PurgeBelowLimit | RPCExp/TagLogger/TagLogService.cs:127-136 | a purge of an over-full table removes at least one row and leaves it `Delta` rows under the limit, or empty |
| Retention.MaintainKeepsNewest | RPCExp/TagLogger/TagLogService.cs:121-143 | maintenance keeps a suffix of the table, all of it unless the deadline passed and the table is over the limit; the deadline moves one period on, or four after a purge |
| Retention.KeptCacheIsSmall | RPCExp/TagLogger/TagLogService.cs:189-191 | an empty cache is never flushed, one of 25 or more always is, and an unflushed cache holds fewer than 25 |
| Retention.SleepMs | RPCExp/TagLogger/TagLogService.cs:208 | the whole milliseconds left to the next check, or 50 ms when the check is already due |
| Retention.SleepWithinCheckPeriod | RPCExp/TagLogger/TagLogService.cs:163-208 | with the 500 ms check period the sleep is at most 500 ms |
| TagLogger.BatchesDrainInOrder | RPCExp/TagLogger/TagLogService.cs:103-118 | the insert batches hold the whole queue in FIFO order; each has 1 to 128 rows, and only the last may be short |
| TagLogger.ArchivedFromOutcomes | RPCExp/TagLogger/TagLogService.cs:165-185 | the cache gains only records returned by configs; an exception is caught and adds nothing |
| TagLogger.ArchivedStamped | RPCExp/TagLogger/TagLogService.cs:169-178 | every record collected by a check is stamped with that check's instant and carries its config's info id |
| TagLogger.InfoOf | RPCExp/TagLogger/TagLogService.cs:252-261 | the `TagLogInfo` navigation: the info with the row's id, or none |
| TagLogger.StagedIsFilter | RPCExp/TagLogger/TagLogService.cs:243-262 | the chained `Where` clauses select exactly the rows that meet every active clause, in store order |
| TagLogger.AllClauses | RPCExp/TagLogger/TagLogService.cs:243-262 | the six chained clauses, taken together, are exactly the filter's `Matches` |
| TagLogger.GetDataIsPageOfMatches | RPCExp/TagLogger/TagLogService.cs:236-271 | no filter gives the first 200 rows; a filter gives `Skip(offset).Take(count)` of the matching rows, with 0/200 unless `Count != 0` |
| TagLogger.GetDataSound | RPCExp/TagLogger/TagLogService.cs:239-271 | every row returned is stored and matches the filter, with at most `count` of them |
| TagLogger.TagLogService.constructor | RPCExp/TagLogger/TagLogService.cs:26-55 | the default periods and limit, an empty cache, and the save deadline `now + SavePeriod` |
| TagLogger.TagLogService.Check | RPCExp/TagLogger/TagLogService.cs:165-185 | each config decides as `Step` does, and the cache gains their records in config order |
| TagLogger.TagLogService.CheckOne | RPCExp/TagLogger/TagLogService.cs:167-184 | one config's turn: it decides as `Step` does, its record (if any) is appended to the cache, and every other config keeps its memory |
| TagLogger.TagLogService.Flush | RPCExp/TagLogger/TagLogService.cs:189-200 | when the flush rule holds, the cache is handed over in order, cleared and the deadline reset; otherwise nothing changes; either way fewer than 25 records remain |
| TagLogger.TagLogService.Round | RPCExp/TagLogger/TagLogService.cs:161-211 | each config remembers its `Decisions` memory; with `c` the earlier cache followed by the round's records, the cache is flushed at `end` exactly when `ShouldFlush` holds for `c` (all of `c` handed over, the cache emptied, the next save `end + savePeriod`), and otherwise nothing is handed over and the save time is kept; the sleep is `SleepMs` |
| TagLogger.TagLogService.SaveAsync | RPCExp/TagLogger/TagLogService.cs:89-147 | a `null` or empty queue changes nothing; otherwise the batches are `Batches(queue)`, the table gains the queue at its end, and `Maintain` runs |
| AlarmLogger.FindCategory | RPCExp/AlarmLogger/AlarmService.cs:53-56 | `FirstOrDefault` by (`Name`, `Style`): a stored category with that key, or none |
| AlarmLogger.FindInfo | RPCExp/AlarmLogger/AlarmService.cs:75-82 | `FirstOrDefault` by category and the six fields: a stored info with them, or none |
| AlarmLogger.AddIfMissing | RPCExp/AlarmLogger/AlarmService.cs:71-72 | `if (!Contains) Add`: the element is present afterwards, appended only when missing |
| AlarmLogger.SyncGrows | RPCExp/AlarmLogger/AlarmService.cs:53-101 | the lists only grow, by at most one category and one info; the config is rebound to a stored info with its six fields, whose category is stored, in use and has its (`Name`, `Style`) |
| AlarmLogger.SyncKeepsConsistent | RPCExp/AlarmLogger/AlarmService.cs:53-101 | no (`Name`, `Style`) or info key is ever stored twice, and the categories in use are stored and held once each |
| AlarmLogger.NewAlarms | RPCExp/AlarmLogger/AlarmService.cs:160-188 | each alarm of a check is stamped `now` and belongs to a config that `IsOk`, was raised and whose custom texts were read; a throwing `IsRized` or custom text adds nothing |
| AlarmLogger.RaisingPositions | RPCExp/AlarmLogger/AlarmService.cs:160-188 | the positions of exactly the raising configs, in increasing order |
| AlarmLogger.NewAlarmsInOrder | RPCExp/AlarmLogger/AlarmService.cs:160-188 | a check appends one alarm per raising config and nothing else, in config order: the j-th alarm is the `Raised` alarm of the j-th raising config |
| AlarmLogger.Fold | RPCExp/AlarmLogger/AlarmService.cs:263 | case folding keeps the length |
| AlarmLogger.ContainsIgnoreCaseFolded | RPCExp/AlarmLogger/AlarmService.cs:263 | `OrdinalIgnoreCase` ignores case on both sides: folding the haystack or the needle first does not change the result |
| AlarmLogger.InfoOf | RPCExp/AlarmLogger/AlarmService.cs:254-263 | the `AlarmInfo` navigation: the info with the alarm's id, or none |
| AlarmLogger.StagedIsFilter | RPCExp/AlarmLogger/AlarmService.cs:245-264 | the chained `Where` clauses select exactly the alarms that meet every active clause, in store order |
| AlarmLogger.GetAlarmsIsMatches | RPCExp/AlarmLogger/AlarmService.cs:242-269 | a filter returns the matching alarms in store order, paged only when `Count != 0` |
| AlarmLogger.DefaultAlarmFilterSelectsAll | RPCExp/AlarmLogger/AlarmService.cs:279-297 | the default filter (sentinel bounds, id 0, no categories, `Count` 0) returns the whole log, like no filter |
| AlarmLogger.AlarmService.constructor | RPCExp/AlarmLogger/AlarmService.cs:19-35 | the default periods and limit, no categories in use, no pending alarms |
| AlarmLogger.AlarmService.SyncOne | RPCExp/AlarmLogger/AlarmService.cs:53-99 | one config's synchronisation is `Sync` on the stored lists and the categories in use |
| AlarmLogger.AlarmService.Bind | RPCExp/AlarmLogger/AlarmService.cs:53-101 | config i is rebound as `SyncOne` does, keeping its flag and fields, to a stored info whose category is stored and in use; the other configs are untouched and the lists stay consistent |
| AlarmLogger.AlarmService.InnitDB | RPCExp/AlarmLogger/AlarmService.cs:40-107 | the configs before cancellation are rebound in order as `Sync` does, and the rest are untouched; the lists only grow and stay consistent |
| AlarmLogger.AlarmService.Check | RPCExp/AlarmLogger/AlarmService.cs:160-188 | the pending alarms gain `NewAlarms` in config order |
| AlarmLogger.AlarmService.Flush | RPCExp/AlarmLogger/AlarmService.cs:190-208 | the same flush rule as the tag log: hand over in order and clear, or keep; fewer than 25 remain |
| AlarmLogger.AlarmService.SaveAsync | RPCExp/AlarmLogger/AlarmService.cs:109-144 | a `null` or empty list changes nothing; otherwise `AddRange` at the end, then `Maintain` |
| Store.Lookup | RPCExp/DbStore/Entities/StoreContext.cs:96-111 | the first tracked match, adding nothing; else the first stored match, now tracked; else a new blank entity; in the model only that entity joins the tracked list, so it grows by at most one (what EF tracks besides is under "Left out") |
| Store.LookupIdempotent | RPCExp/DbStore/Entities/StoreContext.cs:96-111 | once the entity returned satisfies the predicate, a second lookup finds it and adds nothing |
| Store.LookupKeepsKeysUnique | RPCExp/DbStore/Entities/StoreContext.cs:35-49 | a lookup by key, followed by writing an entity with that key, keeps the link keys unique |
| Store.EntitySet.constructor | RPCExp/DbStore/Entities/StoreContext.cs:68-90 | a set over the stored rows, tracking nothing |
| Store.EntitySet.GetOrCreate | RPCExp/DbStore/Entities/StoreContext.cs:96-111 | the tracked list and the returned entity are those of `Lookup` |
| Store.EntitySet.Update | RPCExp/DbStore/Serializers/ProtocolSerializerAbstract.cs:107-110 | a property write on a tracked entity replaces that entity only |
| Store.StoreContext.constructor | RPCExp/DbStore/Entities/StoreContext.cs:68-90 | a fresh context whose six sets are over their stored rows and track nothing |
| ArchiveConfig.Copied | RPCExp/Store/Entities/ArchiveCfg.cs:23-34 | `Id` and `TagCfgId` are kept; `Name`, `Description`, `Tag`, `PeriodMaxSec`, `PeriodMinSec` and `HystProc` come from the config copied |
| ArchiveConfig.CopiedAlgebra | RPCExp/Store/Entities/ArchiveCfg.cs:27-32 | copying twice is copying once, the later source wins, and copying a config onto itself changes nothing |
| ArchiveConfig.CopiedForgetsOldSettings | RPCExp/Store/Entities/ArchiveCfg.cs:27-32 | after a copy nothing of the old settings remains: two configs with the same identity agree |
| ArchiveConfig.ArchiveCfg.constructor | RPCExp/Store/Entities/ArchiveCfg.cs:5-21 | a new entity has every property at its default |
| ArchiveConfig.ArchiveCfg.CopyFrom | RPCExp/Store/Entities/ArchiveCfg.cs:23-34 | succeeds iff the argument is an `ArchiveCfg`; otherwise a throw (an invalid cast, or a null reference for `null`), changing nothing; then the fields are `Copied` from the argument's fields before the call |
| Serializers.AsByte | RPCExp/Store/Serializers/ProtocolSerializerModbus.cs:38 | `ToObject(typeof(byte))` succeeds exactly on integers 0..255 |
| Serializers.AsInt32 | RPCExp/Store/Serializers/ProtocolSerializerModbus.cs:72 | `ToObject(typeof(int))` succeeds exactly on integers in the 32-bit range |
| Serializers.AsBytes | RPCExp/Store/Serializers/ProtocolSerializerModbus.cs:41 | `ToObject(typeof(byte[]))` succeeds exactly on a byte array (base64 text) |
| Serializers.AsFrameType | RPCExp/Store/Serializers/ProtocolSerializerModbus.cs:44 | a frame type is read from its name or its number |
| Serializers.AsRegion | RPCExp/Store/Serializers/ProtocolSerializerModbus.cs:69 | a region is read from its number or its name |
| Serializers.PackDeviceCustom | RPCExp/Store/Serializers/ProtocolSerializerModbus.cs:16-29 | the JSON has exactly the keys `SlaveId`, `ByteOrder` and `FrameType` |
| Serializers.UnpackDeviceCustom | RPCExp/Store/Serializers/ProtocolSerializerModbus.cs:31-47 | each present key sets its property, and a missing one keeps the default (0, {2,3,0,1}, Ip); it fails iff a present value does not convert |
| Serializers.DeviceCustomRoundTrip | RPCExp/Store/Serializers/ProtocolSerializerModbus.cs:16-47 | unpacking what was packed restores the slave id, the byte order and the frame type |
| Serializers.UnpackDeviceReadsOnlyItsKeys | RPCExp/Store/Serializers/ProtocolSerializerModbus.cs:31-47 | an empty object gives a new device's properties, and other keys are ignored |
| Serializers.PackDeviceSpecific | RPCExp/Store/Serializers/ProtocolSerializerModbus.cs:16-29 | the packed JSON of a device unpacks to that device's three properties |
| Serializers.UnpackDeviceSpecific | RPCExp/Store/Serializers/ProtocolSerializerModbus.cs:31-47 | a new device with the unpacked properties, or a throw exactly when a conversion fails; a set `ByteOrder` rebuilds the shared table, through the setter |
| Serializers.PackTagCustom | RPCExp/Store/Serializers/ProtocolSerializerModbus.cs:49-59 | the JSON has exactly the keys `Region` and `Begin` |
| Serializers.UnpackTagCustom | RPCExp/Store/Serializers/ProtocolSerializerModbus.cs:61-75 | each present key overrides the new tag's field; it fails iff a present value does not convert; the length is the new tag's |
| Serializers.TagCustomRoundTrip | RPCExp/Store/Serializers/ProtocolSerializerModbus.cs:49-75 | region and start address round-trip |
| Serializers.UnpackTag | RPCExp/DbStore/Serializers/ProtocolSerializerAbstract.cs:76-88 | the specific tag from the JSON, with `Name`, `DisplayName`, `Description`, `Format`, `Access` and `ValueType` from the config; the rest is the new tag's |
| Serializers.GroupLinks | RPCExp/DbStore/Serializers/ProtocolSerializerAbstract.cs:105-120 | one link per group, in the groups' order |
| Serializers.PackedTag | RPCExp/DbStore/Serializers/ProtocolSerializerAbstract.cs:90-120 | the new config has the six fields, `ClassName` "Modbus", the Modbus JSON, and one link per group naming it |
| Serializers.TagRoundTrip | RPCExp/DbStore/Serializers/ProtocolSerializerAbstract.cs:76-123 | `UnpackTag(PackTag(t))` agrees with t on the six fields, the region and the start address |
| Serializers.StoreGroup | RPCExp/DbStore/Serializers/ProtocolSerializerAbstract.cs:107-110 | the stored group of that name gets the tag group's name, `Min` and description; other stored groups keep theirs |
| Serializers.StoreLink | RPCExp/DbStore/Serializers/ProtocolSerializerAbstract.cs:115-117 | the link of that key is tracked afterwards, no tracked link is lost, and link keys stay unique |
| Serializers.PackGroup | RPCExp/DbStore/Serializers/ProtocolSerializerAbstract.cs:105-120 | one loop pass: the group is stored, and a link to it is appended to the config and tracked; stored groups of other names, and every stored name, are kept |
| Serializers.PackGroups | RPCExp/DbStore/Serializers/ProtocolSerializerAbstract.cs:105-120 | the loop: the config's links are `GroupLinks`, every group's name is stored and its link tracked, every group is stored when names are unique, and the stored groups of names outside the dictionary keep their `Min` and description |
| Serializers.PackTag | RPCExp/DbStore/Serializers/ProtocolSerializerAbstract.cs:90-123 | throws exactly on `null` groups; otherwise returns `PackedTag`, stores every group's name and tracks one link per group; every group is stored when group names are unique; groups the tag does not name keep what they had; link keys stay unique |
| Serializers.SourceOf | RPCExp/DbStore/Serializers/ProtocolSerializerAbstract.cs:33 | the first connection source with the configured name, or `null` when none has it |
| Serializers.UnpackDevice | RPCExp/DbStore/Serializers/ProtocolSerializerAbstract.cs:23-36 | the device from the JSON, with the five header fields of the config and the connection source of that name; a throw when the JSON fails, or when the config has no connection and there are sources to search; the shared converter table is rebuilt for the JSON's byte order exactly when the JSON sets one, else unchanged |
| Serializers.LinkTemplate | RPCExp/DbStore/Serializers/ProtocolSerializerAbstract.cs:60-68 | the device's link to the template is reused when present, else found or created and added once; keys stay unique |
| Serializers.FileTag | RPCExp/DbStore/Serializers/ProtocolSerializerAbstract.cs:57-70 | the template of that id, found or created, lists the tag's config; what templates held is kept |
| Serializers.PackDeviceTag | RPCExp/DbStore/Serializers/ProtocolSerializerAbstract.cs:55-70 | one pass of the loop: the tag's config, the device's link to its template, and the template listing the config; the tag's groups have their names stored and links tracked (and are stored when names are unique); what templates held, stored names, groups the tag does not name, and tracked links are kept |
| Serializers.PackNextTag | RPCExp/DbStore/Serializers/ProtocolSerializerAbstract.cs:53-72 | one pass extends `TagsPacked` from the first `k` tags to the first `k + 1`, failing iff the `k`th tag has `null` groups |
| Serializers.LastGroupsStoredStep | RPCExp/DbStore/Serializers/ProtocolSerializerAbstract.cs:105-110 | after one more tag, each group keeps the `Min` and description of the last tag that names it |
| Serializers.PackConnection | RPCExp/DbStore/Serializers/ProtocolSerializerAbstract.cs:49 | the tracked connection of the connection source's name or a new blank one; a device without a connection throws exactly when some connection is tracked or stored, changing nothing, and otherwise gets the one new blank connection |
| Serializers.PackDeviceHeader | RPCExp/DbStore/Serializers/ProtocolSerializerAbstract.cs:40-51 | the tracked device configs are those of `Lookup` by the device's name, and the config keeps the id and template links of the one found or created; it gets the class name, the five header fields and the Modbus JSON, with a tracked connection of the connection source's name or a new blank one; a device without a connection throws exactly when some connection is tracked or stored, and otherwise gets the one new blank connection |
| Serializers.PackDeviceTags | RPCExp/DbStore/Serializers/ProtocolSerializerAbstract.cs:53-72 | `TagsPacked` for all tags: every tag's config is listed by its template, which the device links once, every group's name is stored and its link tracked, and each group keeps the `Min` and description of the last tag naming it; fails iff some tag has `null` groups; what templates held and tracked links are kept |
| Serializers.PackDeviceTail | RPCExp/DbStore/Serializers/ProtocolSerializerAbstract.cs:53-73 | the header's config with the tags' template links is stored at its lookup position and nowhere else; `TagsPacked` for all tags |
| Serializers.PackDevice | RPCExp/DbStore/Serializers/ProtocolSerializerAbstract.cs:38-74 | succeeds iff the header does not throw (the device has a connection, or no connection is tracked or stored) and its tags have groups; the stored config has the device's header, class name and Modbus JSON, and a tracked connection of the connection source's name or a new blank one; the tracked device configs are `Lookup`'s by the device's name with the config at the position found or created, keeping that entity's id, so device names stay unique; `TagsPacked` for all tags; what templates held and tracked links are kept; link keys stay unique |

## Left out

- The Modbus transport, the TCP/serial/UDP connection sources, `MasterSource` and `ModbusFactory` are not modelled. The transport is a function from request to reply (or failure). The connection is two booleans: `IsOpen` and the result of `EnshureConnected`.
- `MTagsGroup.Slice` is not part of this model. It is a function parameter whose windows hold members of the input and cover them.
- The type converters are function parameters (decode and encode) keyed by value type and byte order. Their byte layouts are not modelled.
- `TagData` and `MTag` are not part of this model. `SetValue(v, q)` is taken to set the value, the quality and the last-update time, and `SetQty` to set the quality only.
- Asynchrony is modelled as sequential calls: `Task.Run` fire-and-forget saves, `ContinueWith`, `Task.Delay` and cancellation tokens. A save runs at the point it is started.
- `DateTime.Now` is one parameter `now` per operation. The C# code reads the clock several times inside a maintenance or a check.
- The loops of `ServiceTaskAsync` are modelled one round at a time (`Round`, `ServicePass`), not as an endless loop.
- EF Core and SQLite are modelled as sequences of rows in store order. This covers `DbContext`, `SaveChangesAsync`, `VACUUM` and the raw SQL text of the insert batches.
- TagLogger.GetDataIsPageOfMatches: SQLite's `LIMIT -1` (unbounded) for a negative `Count` is not modelled. LINQ-to-objects semantics are used, where a negative count takes nothing.
- The 64-bit overflow of the purge arithmetic (`count - StoreItemsCount + Delta`, `StoreItemsCount * 5`) is not modelled. Integers are unbounded there; the clamp to `int.MaxValue` is modelled.
- AlarmLogger.ContainsIgnoreCase: `OrdinalIgnoreCase` is modelled as ASCII case folding only.
- `TagLogService.InnitDB` is not modelled. It is the tag-log counterpart of the alarm service's start-up binding.
- `GetInfos` and `GetCategories` of both services are not modelled; they return the configs' infos and the categories in use unchanged.
- `AlarmConfig.IsRized` and the custom values are not modelled. Their outcomes (raised, not raised or throwing) and their texts are parameters of a check.
- A log row whose info id has no `TagLogInfo` / `AlarmInfo` does not join in a navigation filter. The model does not enforce referential integrity between rows and infos.
- `GetGroupValues` calls `Groups[groupName].Tick()`; the group's period source is not part of this model, so that call is left out.
- `TagsLogTagGroup`'s period source (`BasicPeriodSource`) is not part of this model. The group's period is taken to be its `Min`, and the group is taken to be inactive.
- `Convert.ChangeType` on text is modelled as throwing. Culture-dependent parsing of numeric text is not modelled.
- JSON is a map from key to integer, string or byte array; a byte array stands for its base64 text. Newtonsoft's conversions of strings to numbers, and undefined enum numbers, are not modelled.
- `ModbusRegion` and `FrameType` numbers are taken in declaration order, because the enum declarations are not part of this model.
- `PackTagSpecific` does not write `Length`, so the register count of an unpacked tag is that of the new `MTag`.
- EF identity resolution and navigation fix-up are modelled by values and ids.
- Tag-to-group links are keyed by (tag config id, group name). The group name stands for the group's id, because a stored group is found by its name.
- Serializers.PackDevice, Serializers.PackTag: after a throw the contracts state the device lookup and what is kept (the templates' holdings, the stored group names, the tracked links), but not the partial writes made before the throw.
- The `DbSet`s of `StoreContext` that the serialisers do not use are left out: `Facilities`, `Tags`, `Alarms`, `Archives` and `Scales`.
- `ProtocolSerializerAbstract` uses `device.BadCommPeriod`, while `DeviceAbstract` declares `BadCommWaitPeriod`. They are taken to be one field.
- `ProtocolSerializerModbus` lives in `RPCExp.Store` and derives from the `ProtocolSerializerAbstract` of `RPCExp.DbStore`; they are taken to be one base class.
- The `TagQuality` enumeration is not part of this model. Three qualities are modelled (`GOOD`, `BAD`, `BAD_COMM_FAILURE`), so `Quality < GOOD` is read as "not GOOD".
- C# `null` strings are modelled as "".
- `decimal` is modelled as an exact `real`. Its 28-digit precision and its overflow are not modelled.
- The `Scale`, `Units` and `TemplateId` properties are carried only where an operation reads them.
- The `TagLogConfig` constructor adds the log group to the caller's live tag object, so every other holder of that tag sees the new group. The model works on its own copy of the tag value, so that aliasing is not captured.
- `TagsGroup` dictionaries: `AddByName` is taken to add the group under its name, or to replace the group of the same name. Its source is not part of this model.
- DeviceQueries.UniqueNames: the `Tags` dictionary key of a tag is taken to be its `Name`. The model keeps only the names, so a dictionary whose key differs from the tag's `Name` is not represented.
- Serializers.StoreLink, Serializers.PackGroup, Serializers.PackTag: a new `TagCfg` has `Id` 0 until it is saved. So when a second new tag of the same device has a group that an earlier new tag has, `TagsToTagsGroups.GetOrCreate` finds the earlier tag's link in `Local`, and `ttg.TagCfg = config` re-points it to the second tag. The earlier tag then loses that link. The model keeps links as values keyed by (tag config id, group name) and does not capture which `TagCfg` object a link references, so this re-pointing is not modelled.
- Serializers.LinkTemplate: a new `DeviceCfg` also has `Id` 0 until it is saved. So when a second new device uses a template that an earlier new device links, `DeviceToTemplates.GetOrCreate` finds the earlier device's link in `Local`, and `dev2Templ.Device = config` re-points it to the second device. The model keeps links as values keyed by (device config id, template id), so this re-pointing is not captured, and neither is the earlier device's loss of that link.
- Legacy.Device.Select, Legacy.Device.Update: a tag's activity is modelled as a stored flag. In the C# code `IsActive` enumerates `Groups.Values`, and the selection loop evaluates it for every tag, so a tag with `null` groups throws a `NullReferenceException`. `ServiceTaskAsync` has no catch, so the service task then ends. That throw is not modelled.
- AlarmLogger.GetAlarmsIsMatches, AlarmLogger.GetAlarms: SQLite's `LIMIT -1` (unbounded) for a negative `Count` is not modelled. LINQ-to-objects semantics are used, where a negative count takes nothing.
- Store.Lookup: `dbSet.FirstOrDefault(predicate)` enumerates a tracking query, so EF also tracks every stored row it enumerates before the match, or all stored rows when nothing matches, and the instances tested are the tracked ones. The model tracks only the entity returned and tests the stored rows as they are.
- The group queries of `DeviceAbstract` (`GetGroupValues`, `GetGroupInfos`) build lazy LINQ sequences. The model evaluates them at once, so a throw from a tag with `null` groups is reported by the call itself, not when the result is enumerated.
- The converters' `GetValue` on a span too short for the type throws in the C# code. The decoder is a total function parameter, so that throw is not modelled. For the same reason `DecodedTag` leaves a tag unchanged when its offset lies outside the buffer.
- Modbus.ModbusDevice.Write: the shared table is promised only to be kept or rebuilt. Which of the two happens depends on whether a lookup missed before the throw.
- Modbus.ModbusDevice.IOUpdate, Modbus.ModbusDevice.Update: when a pass throws, `nextTime` and `success` are not described, because the C# methods return no value then.
- `Device.ConnectedOrConnect` is not modelled; it is TCP connection handling, and the service pass takes its result as the `connected` parameter.

## Findings

| source | as written | input that shows it | evidently intended | confidence | as-written member | corrected member |
|---|---|---|---|---|---|---|
| RPCExp/TagLogger/TagLogConfig.cs:58-65 | `PeriodMinSec * 10_000_000` and `PeriodMaxSec * 10_000_000` are 32-bit `int` products and wrap | the default `PeriodMaxSec = 600` gives 1_705_032_704 ticks (about 170 s), so an unchanged GOOD value is archived at tick 1_705_032_704 after the last record | the periods converted to ticks exactly (a `long` product) | not executed | TagLog.MaxPeriodWraps | TagLog.StepArchivesOnChangeOrAge |
| RPCExp/TagLogger/TagLogConfig.cs:46-47 | `AddByName` runs only when the tag already has a group named `TagsLogTagGroup` | a tag with an empty group dictionary is left without the log group | register the log group when the tag does not have it yet | not executed | TagLog.AttachAsWrittenMissesGroup | TagLog.Attach |
