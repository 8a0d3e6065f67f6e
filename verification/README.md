# A verified model of the apcctrl daemon

apcctrl watches an uninterruptible power supply, shuts the machine down when the battery will not last, and
tells clients on the network about it. This project models three parts of it in Dafny and proves what they
are for.

**The event engine** (`src/action.c`, with the poll loop of `src/device.c` and the status word of
`include/struct.h`). `UpsState` holds the state of one UPS, the readings a driver and the clock contribute to
one pass, and the effects that leave the process. `Action` gives one pass as a function of state and reading.
`UpsDaemon.UpsInfo` takes the same pass in place, with the source's branches and order of updates, and is
proved against it, up to the loop of do_device. `ActionFacts` and `PassFacts` say what a pass does, branch by
branch, and `Effects` says independently, with every comparison written out, which effects it has. The results
about whole runs, over any readings and any number of passes, are in `Shutdown` (one shutdown, with one cause;
power kills guarded and paced), `Outcomes` (exactly when the power is to be killed, and what becomes of it),
`Debounce` and `Timeouts` (exactly which passes generate FAILING, LOADLIMIT, RUNLIMIT, TIMEOUT and EMERGENCY),
`Outage` (announcements paired and delayed; battery time conserved, and exactly when not), `Reports` (which
edges are told), `Reaction` (a continuing outage shuts the machine down in time), `Notices` and `Logoffs` (what
users are told).
`StatusWord` connects the record of flags with the bit masks, `NetworkSlave` the update of a network slave with
what the engine expects of its drivers, and `Opening` says what is announced while the UPS cannot be reached.

**The network information service** (`src/lib/apclibnis.c`, `src/apcnis.c`, `src/lib/apcevents.c`,
`src/cgi/upsfetch.c`, `src/lib/asys.c`, `src/lib/memmove.c`). `Framing` models messages with a length in front
over a byte stream; the answers of select, recv and send are a script, so that every theorem is about every
sequence of short, interrupted and failing calls. `CString` has the string and copy routines on byte arrays,
`StatusReport` the server's status report, `EventHistory` the ring of events and the trimming of the events
file, `NisClient` the client's buffer. `NisService` composes them end to end.

**Containers and threads** (`include/alist.h`, `include/amap.h`, `include/aqueue.h`, `src/lib/atimer.cpp`,
`src/lib/athread.cpp`). `AList` is a heap-allocated doubly linked list refined to a sequence, `AMap` a map kept
in it. `AQueue` and `ATimer` are systems of steps: a step is what one thread does between two points where
others can come in, and the theorems hold in every interleaving.

`Eeprom` is the parser of `src/apctest.c` for the command string of a UPS.

`dafny verify dfyconfig.toml` checks the whole project.

## How the source is read

- A pass takes its clock readings, the reported bits, charge and runtime from a `Reading`. Between two passes a
  driver may change anything it reports; it keeps the bits that only the engine sets, except that it may raise
  fastpoll. Driver calls inside a pass do not change the bits that the pass tests; the query for a self test
  may set SelfTest. `NetworkSlave.CallIsObserved` proves the first part of the network driver.
- The fields of UPSINFO are grouped (`LineTimers`, `CutoffTimers`, `OutageBook`, ...); the static variables of
  do_action are part of `Flags`. A process that ends (Error_abort, a terminating signal to itself) is in one
  terminated state, in which nothing happens any more.
- Charge and runtime are reals, counters and times are unbounded integers.
- The template parameter of the list brings its own comparison, which is a parameter of `Find` here.
- The loops over waiting for the mutex, the condition variable and thread creation are steps; a step that needs
  the mutex can only happen while nobody holds it.

Where comments and code differ, the model follows the code: the battery complaint is issued six times before it
is silenced, not five; a cancelled self test breaks out of the switch instead of falling through; net_recv
returns negated error numbers, not -1 and -2; the list of local bits in a comment of the network driver is not
the one of the mask, and a slave that lost its master shuts down at the fifth call in a row, not the fourth.

## Model

| member | source | states |
|---|---|---|
| UpsDaemon.UpsInfo.InitiateHibernate | src/device.c:61-133 | the attempt in place; what becomes of it is stated by Outcomes.AttemptsAreExact |
| UpsDaemon.UpsInfo.ProhibitUserLogins | src/action.c:190-199 | logins are prohibited and logged once; a second call changes nothing |
| UpsDaemon.UpsInfo.DoShutdown | src/action.c:201-237 | the whole new state of a shutdown: stamped, marked, powerfail file before the hibernate attempt, command only if the process survives it; nothing at all when already shut down |
| UpsDaemon.UpsInfo.GenerateEvent | src/action.c:85-131 | the event is logged and exactly six kinds go on to shut the system down; any other kind touches nothing but the log |
| UpsDaemon.UpsInfo.FirstPass | src/action.c:358-372 | the first pass starts the timers and makes every set bit except battery-present look like a change |
| UpsDaemon.UpsInfo.Complain | src/action.c:374-395 | the battery complaint: muted in the first ten minutes and after six complaints, otherwise at most every nine hours |
| UpsDaemon.UpsInfo.NoteBattery | src/action.c:407-429 | battery attach and detach events on a change only; the low-battery timer starts on the rising edge only |
| UpsDaemon.UpsInfo.PowerFailed | src/action.c:440-460 | the power-failure branch: fast polling, self test or power failure reported, timers and outage book restarted |
| UpsDaemon.UpsInfo.SelfTesting | src/action.c:462-472 | a self test is cancelled after 40 seconds or on low battery; there is no fall through |
| UpsDaemon.UpsInfo.ConfirmOnBattery | src/action.c:475-484 | the confirmation of battery operation, which restarts the mains timers |
| UpsDaemon.UpsInfo.KillAgain | src/action.c:486-493 | the repeated power kill of a system that still runs, paced by killdelay, skipped for slaves |
| UpsDaemon.UpsInfo.EvaluateCharge | src/action.c:509-519 | the charge flag follows its condition; its timer starts when the flag rises |
| UpsDaemon.UpsInfo.EvaluateRuntime | src/action.c:521-531 | the runtime flag follows its condition; its timer starts when the flag rises |
| UpsDaemon.UpsInfo.ActOnTimers | src/action.c:533-559 | the order of precedence of the three timers and the dead battery; only an emergency goes on to the nagging |
| UpsDaemon.UpsInfo.RequestLogoff | src/action.c:561-574 | logoff requests are logged the first time and only carried out later |
| UpsDaemon.UpsInfo.DelayLogins | src/action.c:576-598 | logins are banned under the five configured conditions |
| UpsDaemon.UpsInfo.HuntForShutdown | src/action.c:494-599 | the branch of a system on battery that is not shut down, in place; when it shuts down is stated by Timeouts and Debounce |
| UpsDaemon.UpsInfo.PowerIsBack | src/action.c:602-639 | the branch of returning mains: end of outage announced, logins allowed, outage booked |
| UpsDaemon.UpsInfo.CurrentState | src/action.c:253-276 | the branch taken, computed from the two status words, is the one of the specification |
| UpsDaemon.UpsInfo.SwitchOnState | src/action.c:431-653 | the switch does what the specification of the entered state says |
| UpsDaemon.UpsInfo.DoAction | src/action.c:348-664 | one call of do_action takes the state to Action.Pass of it |
| UpsDaemon.UpsInfo.FillUps | src/device.c:165-171 | the driver replaces the reported bits, charge and runtime and keeps the local bits, except that fastpoll may rise |
| UpsDaemon.UpsInfo.DeviceWaitTime | src/device.c:284-307 | the least of the intervals that apply, but at least a second; one second exactly if one of them is no longer |
| UpsDaemon.UpsInfo.OpenUps | src/device.c:173-214 | what is announced while the UPS cannot be reached: the loss as often as Opening says, its end only if the loss was, the commlost bit clear afterwards |
| UpsDaemon.UpsInfo.PollAndAct | src/device.c:246-261 | the second half of a round, which leaves in wait_time the interval that the new state asks for |
| UpsDaemon.UpsInfo.DoDevice | src/device.c:232-272 | the poll loop, two passes per round, reaches exactly the state of the run that the theorems below speak about; the driver is told to wait for exactly the interval that the state after each round asks for |
| UpsDaemon.OutageIsPolledEverySecond | src/device.c:260-271 | for as long as an outage goes on, the value of wait_time with which the driver waits is one second |
| Opening.AnnouncementsAreRare | src/device.c:185-203 | the loss is announced only at failed attempts after the grace period, and announcements are at least ten minutes apart |
| Opening.AnnouncementsAreTimely | src/device.c:185-203 | no failed attempt after the grace period goes unannounced for ten minutes |
| Opening.AnnouncedIffLate | src/device.c:185-214 | the loss, and so its end, is announced exactly if an attempt failed after the grace period |
| Opening.LossIsOneEvent | src/device.c:189-202 | the loss is an event the first time and a message every other |
| PassFacts.PassShutdown | src/action.c:201-237 | a pass logs exactly the critical event for which it shuts down, runs a shutdown only then, kills power only when due, and otherwise leaves the shutdown state alone |
| PassFacts.PassMessages | src/action.c:475-607 | onbatt_msg rises exactly with ONBATTERY and falls exactly with OFFBATTERY |
| PassFacts.PassOutage | src/action.c:453-638 | the outage book moves exactly at power failure and return of mains, and how |
| PassFacts.PassCutoffs | src/action.c:414-531 | only evaluating passes move the charge and runtime flags and timers; only a rising edge moves the low-battery timer |
| PassFacts.PassTest | src/action.c:440-472 | how a pass moves the self test: its start comes from the driver at a power failure, it is given up after 40 seconds or on low battery, and the return of mains makes it the last one |
| PassFacts.PassFastPoll | src/action.c:433-460 | fast polling is on after a pass exactly if a power failure or a shutdown started it, or it was on and this is no pass on mains |
| Effects.PassLog | src/action.c:348-664 | every effect of a pass, in order, told from the state before and the reading with all conditions written out |
| Outcomes.CauseIsReason | src/action.c:494-559 | the event for which a pass shuts down, told from the state before and the reading |
| Outcomes.AttemptsAreExact | src/device.c:61-133 | in every run exactly which passes try to kill the power, with which stamp, and the outcome: an abort exactly if the powerfail file is missing and the UPS is not a dumb one off battery, else left to the master by a ShareUPS slave, else the power is killed |
| Outcomes.AttemptsHaveOutcomes | src/device.c:112-132 | in every run each attempt has one outcome: kills and aborts are the attempts and nothing is left to a master, unless the UPS is a ShareUPS slave, where it is the other way round |
| Shutdown.SingleShutdown | src/action.c:201-237 | in every run the shutdown command is executed at most once, exactly once if the process lives on, and at most one of FAILING, TIMEOUT, LOADLIMIT, RUNLIMIT, EMERGENCY is ever generated |
| Shutdown.ShutdownHasOneCause | src/action.c:201-237 | in every run the shutdown bit is set exactly when one critical event was generated or a remote shutdown brought the system down, and never both |
| Shutdown.MarksTellCause | src/action.c:499-559 | in every run shut_btime is set exactly if TIMEOUT, and shut_emerg exactly if EMERGENCY was generated |
| Shutdown.KillsFollowPowerfailFile | src/action.c:201-222 | in every run each hibernate attempt comes after a creation of the powerfail file |
| Shutdown.KillsArePaced | src/action.c:486-493 | in every run with a positive killdelay consecutive hibernate attempts are at least that far apart |
| Debounce.RemoteImpliesShutdown | src/action.c:397-405 | a pass that was told of a remote shutdown leaves the system shut down, so skipping the edge tests cannot harm |
| Debounce.BattLowHeld | src/action.c:414-429 | while nothing was shut down, a low battery has been low at every pass since the one that started its timer |
| Debounce.FailingIsDebounced | src/action.c:533-539 | FAILING is generated by exactly those evaluating passes at which the battery has been low at every pass for at least five seconds |
| Debounce.LowChargeHeld | src/action.c:509-519 | while the charge flag is up, every evaluating pass since the one that started the timer saw a low charge, whatever mains did meanwhile |
| Debounce.LoadLimitIsDebounced | src/action.c:509-543 | LOADLIMIT is generated by exactly those evaluating passes at which the charge was low at every evaluating pass for five seconds and FAILING does not take precedence |
| Debounce.RunLimitIsDebounced | src/action.c:521-547 | RUNLIMIT likewise for the runtime, when neither FAILING nor LOADLIMIT takes precedence |
| Timeouts.MainsTimer | src/action.c:433-484 | last_time_on_line shows the time of the last pass that was the first, on mains, saw a power failure or confirmed one |
| Timeouts.TimeoutIsExact | src/action.c:494-503 | TIMEOUT is generated by exactly those hunting passes at which a timeout is configured and the last pass that restarted the mains timer is longer ago than that |
| Timeouts.EmergencyIsLast | src/action.c:549-559 | EMERGENCY is generated by exactly those evaluating passes at which the battery is low although the UPS is on line, and none of the three timers has expired |
| Outage.AnnouncementsPaired | src/action.c:475-607 | in every run ONBATTERY minus OFFBATTERY is one while onbatt_msg is set and zero otherwise |
| Outage.FailureIsSeen | src/action.c:253-276 | in every run exactly which readings take the power-failure and mains-back branches: all edges of onbatt but the hidden ones, a start under calibration or remote shutdown and an end under remote shutdown |
| Outage.MessageMeansBattery | src/action.c:602-607 | onbatt_msg implies that the last status was on battery, throughout a run, if and only if no pass under remote shutdown sees the end of an announced outage |
| Outage.OnBatteryIsDelayed | src/action.c:475-484 | in every run each ONBATTERY comes at least onbattdelay seconds after the power-failure pass of the outage it announces, unless the start of that very outage was hidden |
| Outage.EarlyAnnouncement | src/action.c:475-484 | an input on which a hidden start is announced too early, and exactly when |
| Outage.OutagesBalance | src/action.c:440-460 | in every run of a live process power failures and hidden starts are together as many as returns and hidden ends, one more while on battery, and num_xfers counts the failures |
| Outage.AlternateIffSeen | src/action.c:440-639 | failures and returns alternate throughout a run of a live process if and only if no edge was hidden |
| Outage.BatteryTimeConserved | src/action.c:602-639 | if no edge was hidden, the booked time plus the open outage is exactly the time the readings were on battery, in every run of a live process |
| Outage.ConservedIffSeen | src/action.c:602-639 | with an advancing clock the time is conserved throughout a run if and only if no edge was hidden |
| Outage.StaleStartIsBooked | src/action.c:629-638 | a family of inputs on which time is not conserved: an outage that starts under calibration is charged from the start of the outage before |
| Outage.StaleStartExample | src/action.c:629-638 | one such input: 600 seconds are booked for 200 on battery |
| Reports.ReportsAreExact | src/action.c:397-620 | in every run which reports each pass makes: POWEROUT or STARTSELFTEST, MAINSBACK or the end of a self test, BATTATTACH, BATTDETACH and REMOTEDOWN, for exactly the edges it sees |
| Reports.OutagesAreTold | src/action.c:440-620 | in every run POWEROUT and STARTSELFTEST together are the power failures seen, and MAINSBACK and the ends of self tests the returns seen |
| Reports.SelfTestIsExact | src/action.c:440-620 | in every run when a self test starts, is given up and ends, told from the readings |
| Reports.BatteryIsPaired | src/action.c:397-413 | battery detach and attach are told in turn throughout a run of a live process if and only if no change came under remote shutdown |
| Notices.NoticesArePaired | src/action.c:561-627 | in every run bans on logins are announced and lifted in turn, one being in force exactly while the no-login file exists, and logoff requests are logged at most once for each return of mains and once more |
| Logoffs.RequestsAreExact | src/action.c:561-574 | in every run exactly which passes ask the users to log off, with the delays written out, and that each makes one request, as an event or executed |
| Logoffs.RequestedIffAsked | src/action.c:561-627 | a request is logged as an event exactly if none was made since mains last returned |
| Logoffs.RequestsArePaced | src/action.c:561-574 | in every run any two requests are more than `annoy` seconds apart |
| Notices.ComplaintsArePaced | src/action.c:374-395 | in every run two complaints about the battery are more than nine hours apart, and none comes in the first ten minutes |
| Notices.SixComplaints | src/action.c:387-394 | in every run at most six complaints are logged before the flag is silenced and between one time that it is and the next |
| Notices.FlagIsSilenced | src/action.c:374-395 | a pass that finds the flag set after six complaints or in the first ten minutes clears it, does not complain and counts anew; every other pass leaves the flag as the driver set it |
| Reaction.BoundedReaction | src/action.c:440-503 | with a timeout configured, an outage that goes on has shutdown under way at every pass later than onbattdelay + maxtime + one polling gap, and the polling interval is one second throughout |
| StatusWord.MasksAreApart | include/defines.h:73-95 | no two status flags share a bit |
| StatusWord.SetAndClear | include/struct.h:145-200 | setting raises exactly that flag, clearing lowers exactly that flag |
| StatusWord.ChangedTest | include/struct.h:224-227 | a chg test holds exactly if the flag differs between the two words |
| StatusWord.StatusFields.SetOnline | include/struct.h:177-178 | on line and on battery exclude each other after either call; nothing else changes |
| StatusWord.StatusFields.TakeMasterStatus | src/drivers/net/net.c:336-356 | taking in the master's word, in place, is the function of the two words that the next lemma explains |
| StatusWord.NetworkUpdateIsObserved | src/drivers/net/net.c:336-356 | that update keeps the engine's own bits but for a rising fastpoll, hence is one the engine's environment allows, and reports remote shutdown when the master is shutting down |
| NetworkSlave.NetUpsDriver.GetUpsStatusFlag | src/drivers/net/net.c:320-375 | the status word and the count of losses after a call, with or without an answer from the master |
| NetworkSlave.LostMeans | src/drivers/net/net.c:358-373 | a call counts as a loss exactly if the master gave no answer or no report and the word that results says on battery |
| NetworkSlave.FifthLossShutsDown | src/drivers/net/net.c:358-373 | for want of the master a slave is told to shut down by exactly the fifth consecutive loss on battery |
| NetworkSlave.CallIsObserved | src/drivers/net/net.c:320-375 | whatever the master says or does not say, a call is an update that the engine's environment allows, and exactly when it reports remote shutdown |
| Framing.WritesPart | src/lib/apclibnis.c:103-125 | whatever send answers, a prefix goes out, and all of it unless an answer broke the connection |
| Framing.WriteStops | src/lib/apclibnis.c:103-125 | a write ends with everything out, or at the first breaking answer and with the code that it tells |
| Framing.SendsFrame | src/lib/apclibnis.c:171-192 | net_send returns a positive number only when exactly header and data went out; what went out is always a prefix of the frame |
| Framing.CalmReading | src/lib/apclibnis.c:55-97 | without untimely interruptions and failures a read is whole however short its parts |
| Framing.NeverOverreads | src/lib/apclibnis.c:55-97 | whatever the answers, a read takes no more bytes than asked for |
| Framing.ReadFails | src/lib/apclibnis.c:64-97 | a read returns a negative number exactly if it comes to a failing answer, the first one, and then its code |
| Framing.ReadRightIffUndisturbed | src/lib/apclibnis.c:64-97 | for any answers, a read returns the count asked for with exactly those bytes in the buffer if and only if nothing fails or ends early and every interrupted select comes right after an interrupted recv, read off the answers and the length of the stream |
| Framing.UntimelyInterruptions | src/lib/apclibnis.c:73-94 | two inputs on which an interrupted select is taken for the end of the stream, or makes bytes count twice |
| Framing.HeaderGivesLength | src/lib/apclibnis.c:149-177 | the two header bytes are the length modulo 65536, the high byte first, and decode to it |
| Framing.CalmReceiving | src/lib/apclibnis.c:136-162 | net_recv takes the length and that many bytes, or refuses what is larger than the buffer |
| Framing.ReceivingBounds | src/lib/apclibnis.c:136-162 | whatever the answers, net_recv never returns more than the buffer holds and takes bytes for what it returns |
| Framing.ReceivesFrame | src/lib/apclibnis.c:136-162 | the round trip of one message, an empty one being the soft end of file |
| Framing.InStepIffFits | src/lib/apclibnis.c:136-192 | the receiver stays in step with the sender if and only if the message fits sixteen bits and the buffer |
| Framing.RoundTrip | src/lib/apclibnis.c:55-192 | any messages under 64 KiB arrive as sent, in order, over any short and interrupted writes and reads, and the stream is left right behind them |
| Framing.Socket.ReadNBytes | src/lib/apclibnis.c:55-97 | the loop over the caller's buffer does what Framing.Reading says, stale counts included |
| Framing.Socket.WriteNBytes | src/lib/apclibnis.c:103-125 | the write loop does what Framing.Writing says |
| Framing.Socket.NetRecv | src/lib/apclibnis.c:136-162 | net_recv in place |
| Framing.Socket.NetSend | src/lib/apclibnis.c:171-192 | net_send in place |
| CString.StrlCpy | src/lib/asys.c:140-156 | the truncated, terminated copy and the full length as result; nothing is written for size 0 |
| CString.StrlCat | src/lib/asys.c:159-169 | the truncated concatenation and the length it would have had; nothing is written when the destination is full |
| CString.MemMove | src/lib/memmove.c:24-38 | for any two ranges of a buffer and any count the destination becomes the original source and nothing else changes |
| CString.CopyBackward | src/lib/memmove.c:28-31 | the backward loop, for a destination inside the source range |
| CString.CopyForward | src/lib/memmove.c:32-35 | the forward loop, for every other destination |
| StatusReport.LinesOfRecords | src/apcnis.c:75-85 | cutting the buffer into lines gives back the records |
| StatusReport.AdmittedAreSome | src/apcnis.c:112-118 | only given records are accepted and their total stays below the limit |
| StatusReport.AdmittedIfRoom | src/apcnis.c:112-118 | each record is accepted exactly if it and those accepted before have less than 4095 bytes |
| StatusReport.AllAdmitted | src/apcnis.c:112-118 | nothing is left out of what has room altogether |
| StatusReport.HeaderShape | src/apcnis.c:66-68 | the header is one line without NULs |
| StatusReport.HeaderTells | src/apcnis.c:66-68 | between "APC      : " and the newline, three padded decimal fields at the commas: one, the records and the bytes |
| StatusReport.DecimalReadsBack | src/apcnis.c:66-68 | the numbers in the header can be read back |
| StatusReport.ReportOnTheWire | src/apcnis.c:60-94 | on the wire: a header whose fields give the number of the line messages and the sum of their lengths, each accepted record as one message in order, the end mark |
| StatusReport.StatusBuffer.StatusOpen | src/apcnis.c:44-49 | an empty text, whatever was in the buffer |
| StatusReport.StatusBuffer.StatusWrite | src/apcnis.c:102-119 | the record is appended whole and counted exactly if the text stays below the limit, otherwise nothing changes |
| StatusReport.StatusBuffer.StatusClose | src/apcnis.c:60-94 | header, then the lines until one cannot be sent, then the end mark in any case |
| StatusReport.OutputStatus | src/apcnis.c:44-119 | the three calls over any list of records: what is buffered and what is sent |
| NisClient.NextMessage | src/cgi/upsfetch.c:267-271 | a client with room for a message receives the next one, and a zero at the end mark |
| NisClient.FetchBuffer.Append | src/cgi/upsfetch.c:268-270 | a message is appended as a string as far as there is room |
| NisClient.FetchBuffer.FillBuffer | src/cgi/upsfetch.c:255-276 | "status" is sent, and the buffer ends as the first 4095 bytes of the messages that arrive |
| NisClient.FetchBuffer.Prepend | src/cgi/upsfetch.c:175-185 | a message is put in front and the end is cut off, whatever lay behind the old terminator |
| NisClient.FetchBuffer.FetchEvents | src/cgi/upsfetch.c:137-195 | "events" is sent, and the buffer ends as the first 4095 bytes of the messages, newest first |
| EventHistory.ChunksMakeFile | src/lib/apcevents.c:134-140 | reading in chunks neither loses nor changes anything |
| EventHistory.ChunksAreLines | src/lib/apcevents.c:134-140 | a newline stands only at the end of a chunk, and every chunk but the last ends with one or has exactly 255 bytes |
| EventHistory.ChunksOfLines | src/lib/apcevents.c:134-140 | there is no other such way to cut a file: one made of events of at most 255 bytes is read as just these |
| EventHistory.RingAdvances | src/lib/apcevents.c:134-140 | one more chunk in the ring replaces only the oldest |
| EventHistory.ReadEvents | src/lib/apcevents.c:134-140 | for a file of any length the ring ends with the latest chunks, each in its slot; what the chunks are is stated by ChunksAreLines and ChunksOfLines |
| EventHistory.SendSlots | src/lib/apcevents.c:142-155 | the slots are sent oldest first until a send fails |
| EventHistory.OutputEvents | src/lib/apcevents.c:120-171 | the last fifty chunks, if there is memory for the slots, then the end mark in any case, and the return code |
| EventHistory.HistoryOnTheWire | src/lib/apcevents.c:120-171 | for a file without NULs exactly the last min(n, 50) chunks are on the wire, oldest first, and the end mark, all small enough for the client; without memory the end mark alone |
| EventHistory.EventsOnTheWire | src/lib/apcevents.c:120-171 | for a file made of events of at most 255 bytes the last fifty of them, oldest first, and the end mark are on the wire |
| EventHistory.EventFile.TrimEventfile | src/lib/apcevents.c:39-110 | the three return codes with all their causes; whatever read and write answer, the new contents and the error flag; with sound answers the longest end that fits into 80% of the limit and starts on a line |
| EventHistory.EventFile.SkipLine | src/lib/apcevents.c:78-85 | the position behind the first newline, or the end |
| EventHistory.TrimmedFile | src/lib/apcevents.c:48-93 | a trimmed file is the longest end of the old one that has at most 80% of the limit and starts behind a newline; it is below the limit, and a second trim changes nothing |
| NisService.FetchStatus | src/apcnis.c:44-119 | end to end: the client's buffer holds the first 4095 bytes of a header that tells number and size of the accepted records, and of these records |
| NisService.FetchHistory | src/lib/apcevents.c:120-171 | end to end: the client's buffer holds the first 4095 bytes of the last fifty chunks, newest first, which for a file of events are the last fifty events |
| AList.Node.LinkNext | include/alist.h:46-49 | a node is linked in behind another |
| AList.Node.LinkPrev | include/alist.h:50-53 | a node is linked in before another |
| AList.Node.Unlink | include/alist.h:40-41 | the neighbours of a destroyed node are linked to each other |
| AList.List.Append | include/alist.h:84-94 | contents gain the element at the end; links, ends and size stay consistent |
| AList.List.Prepend | include/alist.h:96-106 | contents gain the element in front |
| AList.List.AppendList | include/alist.h:108-120 | contents gain the other list's, which is unchanged; appending a list to itself does nothing |
| AList.List.Remove | include/alist.h:177-184 | exactly that element goes and its successor is returned |
| AList.List.RemoveFirst | include/alist.h:138-138 | the first element goes, if there is one |
| AList.List.RemoveLast | include/alist.h:139-139 | the last element goes, if there is one |
| AList.List.Clear | include/alist.h:140-140 | terminates with no element left |
| AList.List.Find | include/alist.h:186-191 | the first equal element or the end |
| AList.WalksAgree | include/alist.h:35-64 | the forward walk from the head, the backward walk from the tail and the size agree with one sequence |
| AMap.BindingsUpdate | include/amap.h:36-57 | changing the value of one pair changes that binding and no other, and keys stay distinct |
| AMap.Map.Find | include/amap.h:118-119 | finds a node exactly for the keys of the abstract map, the one holding the key |
| AMap.Map.Contains | include/amap.h:56-56 | agrees with the abstract map |
| AMap.Map.At | include/amap.h:50-54 | adds a binding only when the key is absent and leaves all others unchanged; keys stay distinct |
| AMap.Map.Assign | include/amap.h:50-54 | an assignment through the returned reference is an update of the abstract map |
| AQueue.StepKeepsWakeups | include/aqueue.h:50-96 | every step keeps the count of queued elements covered by awakened consumers and signals on their way |
| AQueue.QueueIsSafe | include/aqueue.h:50-111 | in every interleaving no wake-up is lost, and what was removed followed by what is queued is what was enqueued |
| AQueue.NobodySleepsBesideWork | include/aqueue.h:58-82 | once all signals are sent and all awakened consumers have looked, nobody sleeps beside a queued element |
| AQueue.NothingIsLost | include/aqueue.h:50-96 | without clear, what consumers got followed by what is queued is what was enqueued |
| AQueue.OnlyFailedWaitsCrash | include/aqueue.h:84-96 | as long as no wait returns an error other than a timeout, nobody reads the first element of an empty queue |
| ATimer.StepKeepsSound | src/lib/atimer.cpp:43-105 | the invariant that ties _running, _started, the mutex holder, the timer threads and the balance of start calls, callbacks, stops and errors |
| ATimer.TimerIsSafe | src/lib/atimer.cpp:71-105 | in every interleaving at most one thread is inside body; armings and late callbacks together are exactly the callbacks, the stops and failed waits that disarmed, and one for a timer that is on; callbacks never exceed armings |
| ATimer.StopIsFinal | src/lib/atimer.cpp:57-69 | once a stop that found the timer armed has returned and until someone arms it again, no callback runs or can run |
| ATimer.StartIsLostIffLeaving | src/lib/athread.cpp:29-61 | an arming start is noticed by a timer thread unless the last one has left its loop without having cleared _running |
| Eeprom.ParseInvertsPrint | src/apctest.c:2377-2409 | parsing the print of any list of commands gives exactly those of the locale, in order, if and only if they fit the table |
| Eeprom.Table.ParseEepromCmds | src/apctest.c:2377-2409 | the pointer walk that fills the table does what Eeprom.Parsing says, for signed and unsigned plain chars |

## Left out

- UpsDaemon.UpsInfo.InitiateHibernate: the sleeps, and the three reads of a dumb UPS before the decision, are not modelled; they are taken not to change the bits that the pass tests.
- UpsDaemon.UpsInfo.OpenUps: the device setup that follows, and the sleeps between attempts, are not modelled.
- UpsDaemon.UpsInfo.DoDevice: do_reports is not part of the loop, and what open_ups logs is not part of the runs, which start with an empty log; the infinite loop is taken over scripts of any finite length.
- UpsDaemon.UpsInfo.DoAction: the reaping of child processes and the lock around the pass are not modelled.
- NetworkSlave.NetUpsDriver.GetUpsStatusFlag: the early returns before capabilities and static data are known are not modelled; they change nothing here.
- Outage.BatteryTimeConserved: needs clock readings above zero, as time() gives them; a zero is how the code marks an outage that it did not see begin.
- Framing.Socket.NetSend: the conversion of the length to a short is modelled as a remainder, for lengths that are not negative.
- StatusReport.StatusBuffer.StatusClose: the mutex held between opening and closing the report is not modelled, nor is the text that is logged on overflow.
- EventHistory.OutputEvents: a slot of the ring holds the bytes that fgets stored, not the whole buffer.
- AList.List.AppendList: returns no reference to the last element, which does not exist when both lists are empty; copying and assignment, made of clear and append, are not modelled.
- AList.List.Append: the size does not wrap at 32 bits.
- AMap.Map.At: the value of a new binding is a parameter, since the source default-initialises it.
- ATimer.TimerIsSafe: stop() called from the callback, where a thread would join itself, is not a step; that an armed timer fires in the end is not claimed, and StartIsLostIffLeaving tells when it does not.
- Eeprom.Table.ParseEepromCmds: the bytes of a row beyond its values are not modelled, and strings for which the parser would leave its memory or move backwards are excluded by what it requires.
- Overflow of 32-bit counters and of time_t.
- Sockets, select sets, name resolution and connection set-up, syslog, file descriptors, fork and exec, signals.
- The drivers other than the status update of the network driver.
- printf formatting of status records, which are given as strings; the header's numbers are modelled.
- User interfaces: gapcmon, apcagent, the HTML and image output of the CGI programs, the menus of apctest.
- src/lib/apclock.c: a recorded process may exit between the read and the unlink, so there is no mutual exclusion to prove.
