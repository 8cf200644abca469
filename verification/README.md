# A verified model of the FreqChip driver cores

This project models, in Dafny, the stateful cores of the firmware library: the real-time-terminal rings, both ends of
USB mass storage, USB host enumeration, and four small data structures and transfer engines. Code that changes state in
place is a class with the source's fields and one method per source function; each method is proved equal to a
specification function, and the lemmas prove what the system promises about whole runs of those functions.

| file | models |
|---|---|
| `Machine.dfy` | bytes, 32-bit wrap-around, little-endian words |
| `RttOffsets.dfy` | a ring as a value: offsets, stored bytes, the copies the code makes |
| `RttOverwriting.dfy` | the overwriting writer on such a ring: what should remain, what the lap-by-lap copy leaves, when they agree |
| `RttTerminals.dfy` | the codes that switch the host's virtual terminals, and the host that follows them |
| `RttRing.dfy` | one RTT channel in memory: the three write modes, the skip writer, the readers, the overwriting writer, the terminal frame; the host may move `RdOff` before every load |
| `RttInterleaving.dfy` | writer and reader of one ring, one shared-memory access at a time |
| `BulkOnly.dfy` | the wrappers and command blocks of USB Mass Storage Class Bulk-Only Transport 1.0, sections 5.1 and 5.2 |
| `MassStorageDevice.dfy`, `DeviceRuns.dfy` | the device's endpoint handler, and its refinement of a block store |
| `MassStorageHost.dfy`, `HostRuns.dfy`, `HostVerdicts.dfy` | the host's thread and interrupt routines, the order they keep on the bus, and what a caller may conclude from their state |
| `EndToEnd.dfy` | host and device on one lossless bulk pipe |
| `UsbHost.dfy`, `UsbHostRuns.dfy`, `UsbHostVerdicts.dfy`, `UsbHostSuccess.dfy` | enumeration: the two nested state machines on endpoint 0, every run of them, what they refuse and report, and that they enumerate every mass-storage device that answers |
| `DescriptorWalk.dfy`, `DescriptorChoice.dfy`, `DescriptorReassembly.dfy` | the configuration descriptor walk, what its analysis accepts and refuses, and the packets of a control read |
| `DescriptorFetch.dfy` | the two together with the fetch machine: from the packets on the bus to the recognised storage device |
| `FrList.dfy` | the intrusive circular doubly linked list |
| `I2cTransmit.dfy` | interrupt-driven and blocking I2C transmission |
| `UartPacking.dfy` | the UART word packing and unpacking macros |
| `KeyboardReport.dfy` | the HID keyboard report |

How the environment is modelled: the RTT host is a schedule of how many bytes it takes before each load of `RdOff`, and
a write loop that would spin for ever on a full ring with no host returns `blocked`. The bulk pipe moves one packet at a
time into an empty FIFO. An endpoint-0 interrupt comes only for an outstanding transaction, with any status bits; a STALL
shows as none of the bits the handler looks at. Busy-waits whose end another party decides are split into an issuing and a waiting step. Receive
contents, interrupt status bits, frame numbers and FIFO fullness are parameters of the step that reads them.

Properties that turned out to have an exact limit, each proved in both directions or with its failing input:

- For a ring's state and the length of a request, the overwriting writer leaves the newest bytes of every data of that
  length if and only if no lap after the first is cut short (`RttOverwriting.OverwriteExact`). The source restarts every
  later lap with one byte less than the storage holds. After `s` short laps the ring holds `s - 1` bytes, reduced modulo
  its size (`ShortLapsLose`); when that happens to be the full number, its last slot is stale. Requests of at most
  `SizeOfBuffer - 1` bytes never have a short lap (`SmallRequestsFit`).
- The address is programmed, and the class driver entered, after an acknowledgement on the present connection if and only
  if no connect event fell into the busy-wait before (`UsbHostRuns.EnumerationOrder`); over whole runs the order holds if
  and only if no connect event was lost this way (`OrderUnlessLost`, and `LostConnectEvent` for a run that loses one).
  Everything else in the order holds in every run.
- The busy-wait for a status packet can end if and only if an outcome is there or the packet is still outstanding and the
  connection state unchanged (`UsbHostRuns.WaitCanEnd`). A STALL, which the interrupt handler does not look for, ends it
  for ever without any connect event (`StallHangs`, `StalledStatusPacket`), and a STALLed descriptor read leaves the
  driver waiting until the next connect or disconnect event (`StalledReadIsForsaken`).
- A configuration that the analysis refuses is reported as an error, but the device is given up if and only if it names a
  string; otherwise the same pass goes on to SET_CONFIGURATION (`UsbHostVerdicts.WholeConfigurationDecides`).
- Text sent to a terminal appears there if and only if it holds no switch code of its own (`RttTerminals.FrameShown`).
- The descriptor walk's loop fails to end if and only if a chain of descriptors leads to a zero length
  (`DescriptorWalk.WalkHangsOnZero`; `ZeroLengthHangs` is such an input).
- A control read is signalled as complete if and only if the device sent at most 255 bytes, since the count has 8 bits
  (`DescriptorReassembly.StageCompletes`).
- The keyboard report is exact all through a run if and only if never more than six keys are down
  (`KeyboardReport.ExactWhileSix`), and a key code above 255 that is no modifier can be entered twice and never cleared
  (`SetKeepsDistinct`, `WideIsNotFound`).

## Model

| member | source | states |
|---|---|---|
| RttOffsets.PutAppends | components/modules/RTT/SEGGER_RTT.c:433-486 | storing data that fits and advancing the write offset appends exactly the data to the queue the reader sees, and leaves the free space smaller by its length |
| RttOffsets.PutTwoChunks | components/modules/RTT/SEGGER_RTT.c:440-486 | the two-piece copy around the end of the storage stores byte for byte what storing one byte after the other with wrap-around stores |
| RttOffsets.ReadPieces | components/modules/RTT/SEGGER_RTT.c:586-635 | the two pieces a read copies are together the oldest min(BufferSize, used) bytes, although the second size is computed with an unsigned difference that may wrap |
| RttOffsets.AdvanceDrops | components/modules/RTT/SEGGER_RTT.c:570-643 | advancing the read offset by k removes exactly the k oldest bytes |
| RttOverwriting.PutOverwrites | components/modules/RTT/SEGGER_RTT.c:830-901 | pushing the read offset ahead of a write of any length, byte after byte, leaves the last size-1 bytes of old contents followed by new data |
| RttOverwriting.LapsEndAdvances | components/modules/RTT/SEGGER_RTT.c:859-900 | without a short lap the overwriting loop leaves the write offset where the bytes written would take it |
| RttOverwriting.LapsStoreAll | components/modules/RTT/SEGGER_RTT.c:859-900 | without a short lap the lap-by-lap copy stores byte for byte what storing one byte after the other stores |
| RttOverwriting.ShortLapsLose | components/modules/RTT/SEGGER_RTT.c:859-900 | with s short laps, however many, the ring reads as holding s-1 bytes reduced modulo its size |
| RttOverwriting.OverwriteExact | components/modules/RTT/SEGGER_RTT.c:830-901 | the overwriting writer leaves the newest bytes of every data of a given length if and only if no lap is short |
| RttRing.Ring.GetAvailWriteSpace | components/modules/RTT/SEGGER_RTT.c:523-539 | the free space at the moment the host's offset is loaded, one slot always left empty |
| RttRing.Ring.WriteNoCheck | components/modules/RTT/SEGGER_RTT.c:433-486 | data that fits is appended to the stream; array and offset are those of the byte-by-byte store |
| RttRing.Ring.WriteBlockingRound | components/modules/RTT/SEGGER_RTT.c:383-409 | one round appends a prefix of the data: everything that fits, or everything up to the end of the storage |
| RttRing.Ring.WriteBlocking | components/modules/RTT/SEGGER_RTT.c:371-413 | all data is appended in order while the host moves, or the ring is full and the host idle for ever; data that fits the space at the call takes at most two rounds |
| RttRing.Ring.PostTerminalSwitch | components/modules/RTT/SEGGER_RTT.c:501-507 | the two-byte switch code, which names the terminal to the host, is appended; with two free bytes it never blocks |
| RttRing.Ring.SetTerminal | components/modules/RTT/SEGGER_RTT.c:1911-1941 | the code is appended, the terminal becomes active and is the one the host then displays, or nothing changes and -1 is returned, with the exact condition; when blocking mode blocks, a proper prefix of the code is appended |
| RttRing.Ring.PostFrame | components/modules/RTT/SEGGER_RTT.c:1984-2024 | the frame switch, text, switch back is appended whole, or a prefix of it when the call blocks; the host shows the text on terminal id and ends on the active one |
| RttRing.Ring.TerminalOut | components/modules/RTT/SEGGER_RTT.c:1960-2033 | skip and trim mode never block; the stream grows by nothing or by the frame around all of s (skip) or around the prefix that fits (trim); blocking mode appends the frame or a proper prefix of it; after a frame the host displays the active terminal, and what it shows more is the text, on terminal id, if and only if the text holds no switch |
| RttTerminals.SwitchNames | components/modules/RTT/SEGGER_RTT.c:258-258 | the host's own decoding of a switch code gives back the terminal, for each of the sixteen |
| RttTerminals.SwitchesDiffer | components/modules/RTT/SEGGER_RTT.c:258-258 | no two terminals share a code |
| RttTerminals.SwitchShown | components/modules/RTT/SEGGER_RTT.c:501-507 | behind any bytes, a lone 0xFF included, the code puts the host on its terminal and shows nothing |
| RttTerminals.TextShown | components/modules/RTT/SEGGER_RTT.c:1960-2033 | text appears on the terminal displayed if and only if it holds no switch of its own |
| RttTerminals.FrameShown | components/modules/RTT/SEGGER_RTT.c:1960-2033 | behind any bytes the frame adds the text on terminal id, exactly when it holds no switch, and ends on the active terminal |
| RttRing.Ring.WriteSkip | components/modules/RTT/SEGGER_RTT.c:931-990 | all of the data or nothing, by the free space alone, with the array and offset of the byte-by-byte store in every case of the copy |
| RttRing.Ring.WriteNoLock | components/modules/RTT/SEGGER_RTT.c:1096-1145 | for each mode how much is appended, what is returned, and when the call blocks |
| RttRing.SkipWritersAgree | components/modules/RTT/SEGGER_RTT.c:931-990 | the optimised skip writer and the plain one, on two rings alike, accept the same requests and leave rings alike: array, offsets, host |
| RttRing.Ring.Read | components/modules/RTT/SEGGER_RTT.c:570-643 | the caller's buffer gets the oldest min(BufferSize, used) bytes, its rest is unchanged, and exactly those bytes leave the ring |
| RttRing.Ring.ReadRest | components/modules/RTT/SEGGER_RTT.c:616-634 | the second piece of a read, with the wrapping difference of the offsets bounded by the space left |
| RttRing.Ring.PushRdOff | components/modules/RTT/SEGGER_RTT.c:843-855 | the read offset moves past exactly the bytes that make room, reduced below the size |
| RttRing.Ring.WriteLaps | components/modules/RTT/SEGGER_RTT.c:859-900 | the lap-by-lap copy: final bytes and write offset for every length |
| RttRing.Ring.WriteWithOverwrite | components/modules/RTT/SEGGER_RTT.c:830-901 | the contents for every request; they are the last size-1 bytes of old contents and new data whenever no lap is short, and their number is given when one is |
| RttInterleaving.StepKeeps | components/modules/RTT/SEGGER_RTT.c:371-413 | loads, single byte copies and publications of both sides keep: the reader has a prefix of the stream, the rest is stored in order, and each side's snapshot is safe |
| RttInterleaving.EveryRunIsFifo | components/modules/RTT/SEGGER_RTT.c:570-643 | in every interleaving bytes read followed by bytes in the ring are the bytes published, and those a prefix of the bytes accepted; at most size-1 are in the ring |
| RttInterleaving.ReadTakesAllThereIs | components/modules/RTT/SEGGER_RTT.c:586-621 | in every interleaving the load of WrOff fixes the read to min(wanted, published and not read) |
| RttInterleaving.ReadHandsOutTheNext | components/modules/RTT/SEGGER_RTT.c:586-640 | in every interleaving the read then copies the next bytes of the stream, one per step, and hands out exactly those decided on |
| RttInterleaving.CheckedWriteTakesWhatFits | components/modules/RTT/SEGGER_RTT.c:1096-1145 | in every interleaving a skip write takes all or nothing and a trim write the prefix that fits size-1 minus the bytes published and not read |
| RttInterleaving.RoundTakesSome | components/modules/RTT/SEGGER_RTT.c:383-409 | in every interleaving a blocking round takes a prefix that fits, nothing only when the ring is full or nothing is left, and less only up to the end of the storage |
| RttInterleaving.CopyPublishesItsBytes | components/modules/RTT/SEGGER_RTT.c:371-413 | in every interleaving a copy advances with each step and publishes exactly its bytes |
| RttInterleaving.NoUnreadByteOverwritten | components/modules/RTT/SEGGER_RTT.c:371-413 | in every interleaving the slot stored to next is not the slot of an unread byte |
| RttInterleaving.PublishedAdvances | components/modules/RTT/SEGGER_RTT.c:440-486 | the write offset published after a copy is the old one advanced by the bytes copied |
| BulkOnly.BytesRoundTrip | components/driver/usbh_mass_storage.c:764-769 | big-endian and little-endian fields decode to what was encoded |
| BulkOnly.CbwRoundTrip | components/driver/usbh_mass_storage.c:80-96 | signature, tag and command block are recovered from a command wrapper of 31 bytes |
| BulkOnly.CswRoundTrip | components/driver/usb_mass_storage.c:253-274 | signature, tag and good status are recovered from a status wrapper of 13 bytes |
| BulkOnly.CbwLayout | components/driver/usbh_mass_storage.c:755-759 | every byte of a command wrapper on the wire |
| BulkOnly.CswLayout | components/driver/usb_mass_storage.c:263-266 | every byte of a status wrapper on the wire |
| BulkOnly.Read10RoundTrip | components/driver/usb_mass_storage.c:400-412 | the block address and count the device decodes are those the host encoded |
| BulkOnly.FlattenChunks | components/driver/usb_mass_storage.c:463-489 | consecutive 64-byte packets put together are the stretch of disk they were cut from |
| MassStorageDevice.Device.SendCsw | components/driver/usb_mass_storage.c:253-274 | the status wrapper with the command's tag enters an empty FIFO and nothing enters a full one |
| MassStorageDevice.Device.ReceiveData | components/driver/usb_mass_storage.c:304-317 | 64 bytes of disk are replaced at the cursor, and the last packet brings the status wrapper |
| MassStorageDevice.Device.StartRead | components/driver/usb_mass_storage.c:400-426 | a read sets its cursor, adds to the packet counter and sends the first packet or waits for the FIFO |
| MassStorageDevice.Device.ReceiveCommand | components/driver/usb_mass_storage.c:318-459 | every command branch, including an invalid signature and unknown operations |
| MassStorageDevice.Device.Transmit | components/driver/usb_mass_storage.c:463-489 | the next packet, or the status wrapper after the last, or nothing while the FIFO is full |
| MassStorageDevice.Device.Handler | components/driver/usb_mass_storage.c:281-490 | the whole handler as a function of the old state, with receive and transmit status in one call |
| MassStorageDevice.Device.Resume | components/driver/usb_mass_storage.c:344-346 | the end of a busy-wait on the transmit FIFO |
| DeviceRuns.StepKeeps | components/driver/usb_mass_storage.c:281-490 | every event, spurious transmit interrupts included, keeps: the read counter is zero while no read is active, and packets taken followed by packets still owed are those the abstract store owes |
| DeviceRuns.CommandOwes | components/driver/usb_mass_storage.c:318-459 | a command received by a quiet device makes it owe exactly the packets the store answers with |
| DeviceRuns.TransmitKeepsOwed | components/driver/usb_mass_storage.c:463-489 | a transmit interrupt never changes the packets owed, and with an empty FIFO puts the next of them there |
| DeviceRuns.EveryRunServesTheStore | components/driver/usb_mass_storage.c:281-490 | in every run the host received a prefix of what the store owes, all of it once the device is quiet, and the disk is the store's |
| DeviceRuns.OwedPacketComes | components/driver/usb_mass_storage.c:463-489 | whatever is owed enters the FIFO at the next transmit interrupt or the end of the busy-wait |
| DeviceRuns.WriteStoresData | components/driver/usb_mass_storage.c:304-317 | the packets of a write replace exactly the blocks it names, in order, and one status wrapper becomes due |
| DeviceRuns.ReadAfterWrite | components/driver/usb_mass_storage.c:400-445 | a read of the blocks just written is answered with the data written, then one status wrapper with the read's tag |
| DeviceRuns.ReadElsewhere | components/driver/usb_mass_storage.c:400-445 | a read of other blocks is answered as before the write |
| DeviceRuns.AnswersDescribeTheDisk | components/driver/usb_mass_storage.c:349-385 | READ CAPACITY and READ FORMAT CAPACITIES answer with the disk's size and block length |
| DeviceRuns.Serve | components/driver/usb_mass_storage.c:281-490 | the device object taken through any events serves the abstract store: wire, disk and what is still owed |
| MassStorageHost.MassStorage.ScsiStep | components/driver/usbh_mass_storage.c:80-188 | one step through command, data and status stage, and its error code |
| MassStorageHost.MassStorage.Handler | components/driver/usbh_mass_storage.c:402-822 | one call of the thread routine for every SCSI command, with the next tag, the checks of the status wrapper and every error exit |
| MassStorageHost.MassStorage.Check | components/driver/usbh_mass_storage.c:436-456 | what each command demands of its status wrapper and which command follows |
| HostVerdicts.BadStatusGivesUp | components/driver/usbh_mass_storage.c:792-804 | a status wrapper with a wrong signature, another tag or bad status gives the device up with the error of the command, which never looks finished |
| HostVerdicts.GoodStatusGoesOn | components/driver/usbh_mass_storage.c:501-538 | a good one ends the command: the next one follows, or the driver waits for work |
| HostVerdicts.FinishedReadWasAnswered | components/driver/usbh_mass_storage.c:747-806 | in every run a read stops looking busy only with its own good status wrapper at hand, and the data then stays |
| HostVerdicts.FinishedTestWasAnswered | components/driver/usbh_mass_storage.c:695-744 | the same for TEST UNIT READY, whose status byte is left to the caller |
| HostVerdicts.BadPacketEndsCommand | components/driver/usbh_mass_storage.c:190-344 | an error, NAK timeout or STALL on the packet awaited ends the command at the next call with its error, except for the optional MODE SENSE |
| HostVerdicts.RequestsAreTaken | components/driver/usbh_mass_storage.c:848-893 | requests are taken if and only if the driver waits for work, and refused ones leave no trace |
| HostVerdicts.UnpluggedIsQuiet | components/driver/usbh_mass_storage.c:70-78 | after a disconnect nothing happens on the bus and nothing is reported until the next connection |
| HostVerdicts.PluggedStartsOver | components/driver/usbh_mass_storage.c:59-69 | a new connection drops what was under way and mounts anew |
| MassStorageHost.MassStorage.TxInterrupt | components/driver/usbh_mass_storage.c:197-232 | the outcome of the command packet is recorded only while it is awaited |
| MassStorageHost.MassStorage.RxInterrupt | components/driver/usbh_mass_storage.c:235-344 | data is copied behind what is there, and a further packet is asked for until the expected length has come |
| MassStorageHost.MassStorage.ReadBlock | components/driver/usbh_mass_storage.c:848-860 | a read is accepted only while the driver waits for work |
| MassStorageHost.MassStorage.Connect | components/driver/usbh_mass_storage.c:59-69 | a new connection abandons the command under way |
| HostRuns.StepFollows | components/driver/usbh_mass_storage.c:80-188 | every event adds at most one bus operation, and one that the transport's order allows next |
| HostRuns.EveryRunObeysTheTransport | components/driver/usbh_mass_storage.c:80-188 | every run is command, data stage exactly when data is expected, one status wrapper, with tags counting up by one |
| HostRuns.EverySuccessIsOwn | components/driver/usbh_mass_storage.c:402-457 | in every run a success directly follows a status wrapper with the right signature and the command's own tag, which no other of the last 2^32 commands carries |
| HostRuns.TagsDiffer | components/driver/usbh_mass_storage.c:402-457 | tags of commands less than 2^32 apart differ |
| HostRuns.Drive | components/driver/usbh_mass_storage.c:80-344 | the driver object taken through any events is in the state of the run, and its bus operations obey the transport |
| EndToEnd.StepKeeps | components/driver/usbh_mass_storage.c:190-344 | the joint invariant: every packet of the current reply is in exactly one place, in order, and the bytes that have arrived are where the command wants them |
| EndToEnd.WholeData | components/driver/usbh_mass_storage.c:242-270 | when the data stage ends the target holds the whole reply |
| EndToEnd.EveryReadReturnsTheBlock | components/driver/usbh_mass_storage.c:747-806 | in every interleaving, when the host waits for work again the buffer of the last read is the block of the device's disk and the mounted capacity is the device's |
| EndToEnd.CommandAdvances | components/driver/usbh_mass_storage.c:351-822 | no event sets a command back, and in every reachable state an enabled event strictly advances it |
| EndToEnd.EveryReadCanComplete | components/driver/usbh_mass_storage.c:747-806 | from every reachable state the read asked for runs to its end with the block in the buffer |
| UsbHost.Driver.GetDescriptor | components/driver/usb_host.c:908-999 | one step of a control read, with its failure |
| UsbHost.Driver.ThreadAttempt | components/driver/usb_host.c:214-364 | from a new device to its first descriptor, retries included |
| UsbHost.Driver.TakeStatus | components/driver/usb_host.c:467-520 | what follows the busy-wait for the status packet of SET_ADDRESS and SET_CONFIGURATION |
| UsbHost.Driver.EnumerateOnce | components/driver/usb_host.c:523-865 | one enumeration pass over the seven descriptors, including checks that fail and fall through |
| UsbHost.Driver.Thread | components/driver/usb_host.c:203-903 | one call of the thread routine in every connection state |
| UsbHost.Driver.Ep0Interrupt | components/driver/usb_host.c:1009-1206 | both switches of the endpoint-0 interrupt |
| UsbHostRuns.StepKeeps | components/driver/usb_host.c:203-1291 | thread calls, interrupts and connect or disconnect events keep: the machines take turns, one transaction is under way, and what counts as done was acknowledged on this connection |
| UsbHostRuns.OneSwitchTakesIt | components/driver/usb_host.c:1017-1205 | in every run the fetch machine is idle whenever the connection machine waits for endpoint 0, and no interrupt is recorded by both switches |
| UsbHostRuns.OutcomesAreConsumedOnce | components/driver/usb_host.c:279-520 | in every run a packet is issued only with nothing outstanding, each outcome is recorded once for the outstanding transaction and consumed once before the next packet |
| UsbHostRuns.EnumerationOrder | components/driver/usb_host.c:401-889 | in every run: the address is programmed after an acknowledged SET_ADDRESS, and the class driver entered after an acknowledged SET_CONFIGURATION, if and only if no connect event fell into the busy-wait before; SET_CONFIGURATION is sent after three fetched descriptors; at most three first attempts |
| UsbHostRuns.OrderUnlessLost | components/driver/usb_host.c:203-1291 | in every run each milestone of the present connection came in its place if and only if its connect event was not lost in a busy-wait |
| UsbHostRuns.WakeUpKeepsOrder | components/driver/usb_host.c:467-520 | one successful wake-up keeps that order if and only if no connect event arrived during the wait |
| UsbHostRuns.WakeUpForgetsEvent | components/driver/usb_host.c:467-520 | every wake-up overwrites the connection state, whatever event had arrived |
| UsbHostRuns.WaitCanEnd | components/driver/usb_host.c:467-467 | some future ends the busy-wait if and only if an outcome is recorded, or the status packet is outstanding and the connection state unchanged |
| UsbHostRuns.WaitNeverEnds | components/driver/usb_host.c:467-467 | otherwise no run ends it |
| UsbHostRuns.StallHangs | components/driver/usb_host.c:1086-1107 | the interrupt of a status packet lets the thread go if and only if it carries RxPktRdy, an error or a NAK timeout while the connection state is unchanged; a STALL carries none |
| UsbHostRuns.StallForsakes | components/driver/usb_host.c:1037-1060 | the interrupt of an awaited data packet leaves no outcome if and only if it carries none of the three bits |
| UsbHostRuns.StalledReadIsForsaken | components/driver/usb_host.c:949-965 | after that the driver sends no further packet until the next connect or disconnect event |
| UsbHostRuns.StalledStatusPacket | components/driver/usb_host.c:462-467 | a run without a second event in which a STALL hangs the thread |
| UsbHostRuns.LostConnectEvent | components/driver/usb_host.c:467-500 | a run in which a second device is enumerated at the address given to the first |
| UsbHostRuns.Drive | components/driver/usb_host.c:203-1291 | the driver object taken through any events that can happen is in the state of the run and keeps the invariant |
| UsbHostVerdicts.DeviceClassDecides | components/driver/usb_host.c:546-561 | the call that first sees the device descriptor gives up if and only if the class is neither 0 nor 8 |
| UsbHostVerdicts.ConfigurationDecides | components/driver/usb_host.c:583-599 | the call that first sees the configuration descriptor gives up if and only if its type is wrong or its length above 255 |
| UsbHostVerdicts.WholeConfigurationDecides | components/driver/usb_host.c:626-864 | the call that first sees the whole configuration reports an error if and only if it is refused, and gives up if and only if it is refused and a string is named |
| UsbHostVerdicts.AttemptsAreThree | components/driver/usb_host.c:291-364 | in every run a failed first attempt is repeated while fewer than three were made, and the third failure is reported |
| UsbHostVerdicts.FailureIsReported | components/driver/usb_host.c:412-520 | in every run the call that finds any other failed transaction gives the device up with an error |
| UsbHostVerdicts.BusErrorIsFailure | components/driver/usb_host.c:1009-1206 | in every run an error or NAK timeout of the awaited transaction is recorded as its failure |
| UsbHostVerdicts.UnitsDecide | components/driver/usbh_mass_storage.c:380-399 | the number of units decides whether the class driver goes on |
| UsbHostVerdicts.UnpluggedIsQuiet | components/driver/usb_host.c:1270-1278 | after a disconnect outside the busy-wait no packet is sent until the next connect event |
| UsbHostVerdicts.ResetsWait | components/driver/usb_host.c:261-277 | after a reset more than fifty frames of the 11-bit counter pass, and then the thread goes on |
| UsbHostSuccess.FetchNext | components/driver/usb_host.c:908-999 | six calls and three interrupts fetch the descriptor that is next and leave the others as wanted as before |
| UsbHostSuccess.GoodDeviceIsEnumerated | components/driver/usb_host.c:203-889 | for all descriptors of a mass-storage device, whichever strings it names, a run leads from the start to the class driver without an error, with both requests acknowledged |
| DescriptorWalk.Walk | components/driver/usb_host.c:634-657 | the loop collects exactly the offsets of the interface descriptors, in order |
| DescriptorWalk.WalkRecovers | components/driver/usb_host.c:634-657 | for every serialised list of descriptors the walk recovers the offsets of its interface descriptors |
| DescriptorWalk.WalkHangsOnZero | components/driver/usb_host.c:640-657 | the loop's offset stays below the total length for ever if and only if a chain of descriptors leads to a zero length |
| DescriptorWalk.LoopsForEver | components/driver/usb_host.c:640-657 | the walk's result is undefined exactly when the loop runs for ever |
| DescriptorWalk.ZeroLengthHangs | components/driver/usb_host.c:645-656 | an input on which it does |
| DescriptorWalk.Examine | components/driver/usb_host.c:659-726 | the loop over the first bNumInterfaces interfaces chooses what examining them one after the other chooses |
| DescriptorChoice.ChoiceMeans | components/driver/usb_host.c:659-726 | in terms of the bytes: storage is found if and only if some interface is class 8, subclass 6, protocol 50h with two endpoints, the last such is chosen, a fault is set if and only if a storage-class interface fails that or lacks an endpoint descriptor, and the endpoints are the last of their direction |
| DescriptorChoice.LastEndpointIsOne | components/driver/usb_host.c:672-712 | the endpoint chosen is one of the wanted direction behind a storage interface, and none is chosen only when there is none |
| DescriptorChoice.Choose | components/driver/usb_host.c:659-726 | the loop on a configuration seen for the first time, with all of this |
| DescriptorWalk.StorageFound | components/driver/usb_host.c:634-726 | a bulk-only storage interface followed by its two endpoints, in either order and among other descriptors, is found with its endpoints told apart and no fault, once bNumInterfaces reaches as far |
| DescriptorReassembly.Receiver.Receive | components/driver/usb_host.c:1135-1176 | one packet: bytes copied at the pointer, 8-bit count, length taken from the first byte when unknown, and the signal |
| DescriptorReassembly.NotYet | components/driver/usb_host.c:1135-1176 | before the announced length is reached nothing is signalled and the memory is the concatenation of the packets |
| DescriptorReassembly.StageCompletes | components/driver/usb_host.c:1135-1176 | with the packet that reaches the announced length the memory holds the concatenation, and success is signalled if and only if at most 255 bytes came |
| DescriptorReassembly.ExactStageCompletes | components/driver/usb_host.c:1135-1176 | exactly the announced number of bytes, in packets of any sizes up to 64, is always understood, on the last packet and not before |
| DescriptorFetch.DescriptorFetched | components/driver/usb_host.c:1135-1176 | over a data stage of exactly the announced bytes the fetch machine asks for packet after packet, records success on the last and not before, and the memory holds the bytes |
| DescriptorFetch.StorageDeviceRecognised | components/driver/usb_host.c:626-738 | when the packets put together are the configuration of a storage device, the thread's check of it recognises the device and reports no error |
| FrList.RingIsUnique | components/driver/drv_common/drv_common_list.h:87-213 | the pointers determine the list |
| FrList.StepsCancel | components/driver/drv_common/drv_common_list.h:87-213 | next.prev and prev.next of every member are the member |
| FrList.Node.constructor | components/driver/drv_common/drv_common_list.h:71-74 | an initialised head is an empty list |
| FrList.Link | components/driver/drv_common/drv_common_list.h:87-94 | the new entry stands between the last node and the first |
| FrList.Add | components/driver/drv_common/drv_common_list.h:106-110 | the entry becomes the first |
| FrList.AddTail | components/driver/drv_common/drv_common_list.h:122-126 | the entry becomes the last |
| FrList.Del | components/driver/drv_common/drv_common_list.h:157-160 | exactly the entry leaves the list and its own pointers stay |
| FrList.DelInit | components/driver/drv_common/drv_common_list.h:170-174 | exactly the entry leaves the list and becomes an empty list |
| FrList.Empty | components/driver/drv_common/drv_common_list.h:184-187 | true exactly for a list without entries |
| FrList.Splice | components/driver/drv_common/drv_common_list.h:198-213 | the spliced entries stand in front of the old ones; an empty list changes nothing; the spliced head is left stale |
| FrList.SplicedIsRing | components/driver/drv_common/drv_common_list.h:198-213 | two opened rings joined at both ends are one closed ring |
| FrList.ForEach | components/driver/drv_common/drv_common_list.h:237-238 | visits the entries in order |
| FrList.ForEachPrev | components/driver/drv_common/drv_common_list.h:265-266 | visits the entries in reverse order |
| FrList.ForEachSafe | components/driver/drv_common/drv_common_list.h:252-254 | with a body that deletes any chosen entries the sweep ends, visits every entry in order and leaves the list of the others |
| I2cTransmit.Handle.Fill | components/driver/driver_i2c.c:38-64 | how many bytes one fill writes and why it stops, for every fullness of the FIFO and every abort |
| I2cTransmit.Handle.Interrupt | components/driver/driver_i2c.c:28-66 | the TX_EMPTY part of the interrupt |
| I2cTransmit.Handle.TransmitIT | components/driver/driver_i2c.c:380-443 | the starting call: refused when empty or busy, complete, aborted, or left to the interrupt |
| I2cTransmit.Handle.Transmit | components/driver/driver_i2c.c:250-297 | the blocking call writes one byte of the same frame per turn that finds room, stops at the first abort, and reports success exactly after the whole frame without one |
| I2cTransmit.StepKeeps | components/driver/driver_i2c.c:28-66 | every call and interrupt only appends to what the bus has seen, and a transfer begins only when none is busy |
| I2cTransmit.EveryRunSendsOneFrame | components/driver/driver_i2c.c:380-443 | in every run the current transfer has written a prefix of its bytes, each once and in order, with STOP on the last only; the interrupt is enabled exactly while busy; not aborted and not busy means complete |
| I2cTransmit.BusSeesTheBytes | components/driver/driver_i2c.c:38-54 | in every run the values written are the caller's bytes, with bit 9 on the last alone |
| I2cTransmit.InterruptStops | components/driver/driver_i2c.c:38-64 | how far every interrupt gets, and exactly when it ends the transfer, by the last byte or by an abort before it |
| I2cTransmit.StartAnswers | components/driver/driver_i2c.c:380-443 | exactly when a starting call is refused, how far it gets, when it is aborted and what it returns |
| I2cTransmit.InterruptsComplete | components/driver/driver_i2c.c:28-66 | as many interrupts as bytes are left complete the transfer |
| UartPacking.WordsOfBytes | components/driver/include/uart_private.h:330-345 | any prefix of the bytes of words rebuilds the words it covers |
| UartPacking.LowestFirst | components/driver/include/uart_private.h:432-439 | the lowest byte of a word is sent first |
| UartPacking.OneMore | components/driver/include/uart_private.h:336-341 | one byte shifted into the holding register completes a word or stands behind the bytes before it |
| UartPacking.Uart.XFifoWrite | components/driver/include/uart_private.h:427-443 | one call emits the next min(MAX, txRemain) little-endian bytes |
| UartPacking.Uart.XFifoRead | components/driver/include/uart_private.h:330-345 | one call takes min(MAX, rxRemain) bytes, and the memory holds the words of all bytes taken |
| UartPacking.WriteSplit | components/driver/include/uart_private.h:427-443 | any split into calls emits the same bytes |
| UartPacking.ReadSplit | components/driver/include/uart_private.h:330-345 | any split into calls rebuilds the same words |
| UartPacking.RoundTrip | components/driver/include/uart_private.h:330-443 | the words covered by any length arrive, whatever the two splits are |
| KeyboardReport.Keyboard.Set | components/driver/usb_hid.c:336-369 | a modifier sets its bit; another key is appended if absent and there is room; the slots stay compact |
| KeyboardReport.Keyboard.Clear | components/driver/usb_hid.c:379-420 | a modifier clears its bit; another key is removed and those behind it move up |
| KeyboardReport.Keyboard.Close | components/driver/usb_hid.c:402-414 | the inner loop closes the gap and keeps the order |
| KeyboardReport.SlotsShowKeysDown | components/driver/usb_hid.c:336-420 | in every run of keys 1 to 255 and modifiers the slots hold distinct non-zero keys, at most six, all of them down |
| KeyboardReport.PressedIsDown | components/driver/usb_hid.c:336-420 | a key is in the unlimited list of pressed keys exactly when its last event was a press |
| KeyboardReport.SlotsAreExact | components/driver/usb_hid.c:336-420 | while never more than six keys are down the slots are the list of keys down, in order of pressing |
| KeyboardReport.ExactWhileSix | components/driver/usb_hid.c:336-420 | that holds all through a run if and only if never more than six keys are down |
| KeyboardReport.ModifiersAreIndependent | components/driver/usb_hid.c:342-349 | in every run a modifier bit is set exactly when the last event of its own key was a press |
| KeyboardReport.MaskIsCode | components/driver/usb_hid.c:342-349 | exactly the codes 1000h plus one bit are modifiers, and each stands for its own bit |
| KeyboardReport.SetKeepsDistinct | components/driver/usb_hid.c:353-367 | the exact condition under which a 16-bit key code leaves the slots distinct |
| KeyboardReport.WideIsNotFound | components/driver/usb_hid.c:396-400 | a code above 255 is never found in a slot |

## Left out

- RttRing.Ring.WriteWithOverwrite: says nothing when `WrOff + NumBytes + 1` reaches 2^32, where the source's offset sum wraps; a ring and data that are separate objects in a 32-bit address space stay below it.
- RttRing.Ring.WriteLaps: needs a ring of at least two bytes unless the data fits before the end of the storage; on a ring of one byte the source's laps have length zero and never end.
- RttRing.Ring.TerminalOut: needs the string and four more bytes to fit in 32 bits, which a C string in the address space does.
- RttRing.Ring.Read: the caller's buffer is not the ring's own storage.
- MassStorageHost.MassStorage.RxInterrupt: the driver does not check that a packet fits its buffer, so a packet that does not fit, or a status wrapper that is not one packet of 13 bytes, is not modelled.
- MassStorageHost.MassStorage.ReadBlock: the caller's buffer is a value, so a buffer that overlaps the driver's own memory is not modelled.
- MassStorageDevice.Device.ReceiveCommand: only reads and writes of at least one block inside the disk.
- MassStorageDevice.Device.StartRead: only reads of at least one block inside the disk; the source does not check.
- MassStorageDevice.Device.ReceiveData: only packets of 64 bytes inside the disk, which is what the source copies whatever has come.
- MassStorageDevice.Device.Handler: as its parts.
- EndToEnd.EveryReadReturnsTheBlock: one block per read, since the host fixes the lengths of READ(10) at 512 bytes (components/driver/usbh_mass_storage.c:756 and 779); the host driver has no write command.
- DeviceRuns.EveryRunServesTheStore: write data comes in packets of 64 bytes and no bus reset falls into a transfer.
- UsbHost.Driver.EnumerateOnce: the walk and the choice of endpoints enter as facts about the descriptor; `DescriptorFetch.StorageDeviceRecognised` supplies them.
- UsbHost.Driver.Ep0Interrupt: whether a packet completes its descriptor is an input; `DescriptorFetch.DescriptorFetched` ties it to the byte count.
- UsbHost.Driver.Thread: the inner wait for a non-zero frame after the second reset (components/driver/usb_host.c:376-379) is one look per call. A call that finds frame zero leaves the state unchanged, as the waiting loop does; that the loop does not let other calls in between, and that a further call repeats the reset signal, is not modelled.
- UsbHostRuns.EnumerationOrder: a failed descriptor check does not keep SET_CONFIGURATION from being sent, because the state is overwritten at components/driver/usb_host.c:856-864; the model follows the code, so only the fetches are required.
- DescriptorWalk.Walk: not for more than five interface descriptors, which the source would store past its array, nor for a zero length, where its loop does not end.
- DescriptorWalk.Examine: not for a bNumInterfaces above the number of interfaces found, where the source follows pointers left over from before.
- DescriptorReassembly.Receiver.Receive: the packet fits the memory, which the source does not check.
- UartPacking.Uart.XFifoRead: the FIFO holds as many bytes as the call reads, which the macro's caller has to see to.
- I2cTransmit.EveryRunSendsOneFrame: the caller leaves its data alone while the transfer is busy.
- In `UsbHost.dfy` the contents of a descriptor are the few facts the thread looks at; the bytes are the subject of the two descriptor modules.
- Command blocks are 16 bytes with the bytes a command does not use at zero; the overlay structs of the source are not modelled.
- `usbh_msu_test_unit_ready` up to its busy-wait only.
- The endpoint-0 side of the mass-storage class (number of units) is part of enumeration only.
- `SEGGER_RTT_GetBytesInBuffer` with `RdOff > WrOff`, whose branch does not compute the number of bytes in use; locks, initialisation and buffer configuration of RTT; `printf`.
- The receive side of the I2C interrupt handler, and `driver_iic.c`.
- `UART_FIFO_READ` and `UART_FIFO_WRITE`, which poll the line status between bytes but pack and unpack in the same way; the UART driver body is not part of this model.
- Registers, clocks, delays and memory barriers, and all other drivers, which are register configuration or simple loops.
