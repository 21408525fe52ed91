# Verified model of the LoRa interface for Reticulum

This project models the parts of the direct-SPI LoRa interface that carry its promises, and proves those
promises for every input, every run or every interleaving:

* **the airtime ledger** (`Ledger`, `History`, `Claims`, `DutyAccounts`, `DutyProtocol`, `DutyCalls`,
  `DutyGuarantees`, `DutyRecovery`, `HiddenGains`): what one locked reservation computes, what its stamp
  correction credits in true time, and any number of processes sharing the ledger step by step, with
  crashes, failed writes and deletions of the ledger;
* **RNode air framing** (`Framing`): the splitter and the timed reassembly automaton;
* **bus and radio access** (`SpiBus`, `BusSafety`): one transaction with all its faults, and the
  interleavings of the two worker threads and any number of peer processes;
* **the outbound pipeline** (`TxPipeline`, `Carriage`, `Interface`): queue, grants, keyed frames and faults,
  and what the frames carry; `Delivery` hears them with the reassembler;
* **pipelines and ledger together** (`Prepayment`, `FirstPacket`): any number of interfaces reserving through one ledger,
  every frame on the air tied to the charge that paid it;
* **time on air** (`AirTime`), **the band plan** (`Policy`) and **the RF log** (`RfRecord`, `RfLog`);
* `Compliance` concludes for the legal ceiling.

`dafny verify dfyconfig.toml` checks the whole project.

## How to read it

Times and airtimes are reals. True time, which no code can read, is part of the model: a `Sample` is an
instant of true time with the clock reading taken at it, and `History.Record` keeps when a charge really
happened beside the stamp the ledger gives it. One clock sample is taken per locked operation. Within one
boot the monotonic clock measures true time, boot ids differ between boots, the lock file is never
deleted, and 0 < short window <= long window.

Concurrent parts are state machines: a label names one step, `Enabled` and `Apply` give its meaning,
`Legal`/`Exec` are runs. The statements are about every legal run, so about every reachable state. Objects
that the source updates in place are classes whose methods are proved against the functions the theorems
speak about.

The main results:

* In every interleaving the airtime charged and the airtime granted in every hour of true time, ending at
  any instant, are within the configured limit (`DutyGuarantees.AirtimeWithinLimits`), provided the wall
  clock hides no gain of at most 60 seconds between two writes. For every other clock the hour is shorter
  by what the writes of an hour let through (`DutyGuarantees.AirtimeWithinBudget`), and it cannot be less:
  for every account and every such gain a run breaks every stretch that is short by less
  (`HiddenGains.HiddenGainBreaksTheLimit`). A grant is of exactly the airtime its caller asked for
  (`DutyGuarantees.GrantedAsAsked`) and is charged in full (`DutyGuarantees.GrantsArePrepaid`). Within one
  boot with a steady clock the verdict is exactly the limit test on true time
  (`DutyGuarantees.VerdictIsExact`). After any history the radio recovers
  (`DutyRecovery.LateVerdictsGrant`).
* What goes on the air is the accepted packets in their order, each as its own frames
  (`Carriage.WhatGoesOut`), and a reassembler that hears it delivers exactly the packets transmitted
  (`Delivery.WhatIsSentIsDelivered`).
* Every frame keyed by any process is within the charge of its own packet
  (`Prepayment.EveryFrameIsCharged`), so with an accepted configuration what is keyed stays within the share
  of the one segment around the channel (`Compliance.OnAirIsUnderTheCeiling`).
* A reassembly run delivers exactly what a buffer-free reference computes from the frames alone
  (`Framing.RunMatchesReference`); splitter and reassembler undo each other over whole streams.
* At most one SPI transfer is in progress and its process holds the lock, although the two threads share
  one descriptor (`BusSafety.OneTransferUnderTheLock`).

Two comments of the source do not describe the code, and the model follows the code. The docstring of
`_rebase` (`loraham_rns/duty.py:185-186`) says stamps are taken at face value across a reboot; the code
shifts them when the wall clock moved forward by more than the skew. The note at
`loraham_rns/framing.py:20-21` says the timeout never delivers anything the firmware would not; that holds
for one step (`Framing.StepAgainstRules`) and fails over some runs in which a half expires or a header
comes with nothing behind it (`Framing.ExpiryCanPairDifferently`). `Framing.NothingElseExactlyWhen` gives
the exact condition on the frames, and on runs without expiry the two agree completely
(`Framing.UnexpiredRunsMatchRules`).

## Model

| member | source | states |
|---|---|---|
| Framing.FrameShape | loraham_rns/framing.py:55-68 | Refused exactly above 508 bytes; otherwise one or two frames of at most 255 bytes with one header, split flag exactly when two, and the payloads concatenate to the packet |
| Framing.Reassembler.constructor | loraham_rns/framing.py:74-80 | A new reassembler is idle with nothing dropped |
| Framing.Reassembler.Reset | loraham_rns/framing.py:82-83 | Forgets the pending half and nothing else |
| Framing.Reassembler.FeedRaw | loraham_rns/framing.py:85-120 | One call is one step of the automaton the run theorems are about, in state and in delivery |
| Framing.RunMatchesReference | loraham_rns/framing.py:85-120 | For every timed sequence of frames, each frame delivers what the buffer-free reference says, and the pending half is exactly the last frame fed |
| Framing.Provenance | loraham_rns/framing.py:106-120 | A delivery is one whole frame, or two immediately consecutive split frames of equal sequence at most max_age apart |
| Framing.NoFrameTwice | loraham_rns/framing.py:106-120 | No frame contributes to two packets |
| Framing.Conservation | loraham_rns/framing.py:88-120 | From any state, frames fed = frames delivered + dropped + pending, through every drop path |
| Framing.StreamDelivered | loraham_rns/framing.py:55-120 | From any state that does not glue onto the first packet, any list of packets of 1 to 508 bytes is delivered exactly, in order; only the old half is dropped |
| Framing.StreamRoundTrip | loraham_rns/framing.py:55-120 | From idle: exactly the list, ends idle, drop counter unchanged |
| Framing.StabilisesAfterWholeFrame | loraham_rns/framing.py:88-120 | After any junk, one whole or header-only frame makes everything complete that follows come out exactly |
| Framing.StabilisesAfterSilence | loraham_rns/framing.py:101-105 | So does a silence longer than max_age |
| Framing.GlueSpoilsThePacket | loraham_rns/framing.py:110-113 | In the excluded case the stale half swallows the packet's first frame, for every such state and packet |
| Framing.StepAgainstRules | loraham_rns/framing.py:12-21 | From equal states a step delivers what the firmware rules deliver or nothing, and says exactly when nothing |
| Framing.NoExpiryIsExact | loraham_rns/framing.py:101-105 | The condition on the frames, which allows any silence with nothing pending, says exactly that no half is ever dropped for its age |
| Framing.UnexpiredRunsMatchRules | loraham_rns/framing.py:12-21 | On every run without expiry and header-only frames, deliveries and final buffer are the firmware's |
| Framing.FirmwareReference | loraham_rns/framing.py:12-17 | What the documented rules deliver on each frame, by the parity of its links |
| Framing.NothingElseExactlyWhen | loraham_rns/framing.py:20-21 | Over whole runs, every frame delivers nothing or what the firmware delivers on it, exactly when no chain of halves starts where the firmware has already paired |
| Framing.ExpiryCanPairDifferently | loraham_rns/framing.py:20-21 | A run on which the documented inclusion fails |
| AirTime.SymbolsAreEnoughAndFewest | loraham_rns/radio.py:116-124 | Payload symbols are eight plus the least number of coding blocks that hold the bits |
| AirTime.DatasheetSymbols | loraham_rns/radio.py:119-123 | The number of symbols from the spreading factor, bandwidth, coding rate and length alone, low-data-rate term included: eight and whole blocks, exactly as few as needed |
| AirTime.DatasheetTime | loraham_rns/radio.py:119-124 | The time on air is that of the preamble and those symbols, each of 2^sf chips at the rate of the bandwidth |
| AirTime.ThresholdFigures | loraham_rns/radio.py:120-123 | Symbol counts on both sides of the 16 ms threshold, at 125 and 250 kHz |
| AirTime.TimeOnAirMonotone | loraham_rns/radio.py:116-124 | Positive and non-decreasing in the length, for all settings |
| AirTime.AnnounceFigure | tests/test_radio_math.py:15-18 | The measured announce lies in the stated interval |
| AirTime.LowDataRateFigure | tests/test_radio_math.py:21-24 | The low-data-rate mode is engaged for long symbols, with its figure, more than ten times the one at SF7 |
| AirTime.TimeoutNeverSplitsAPacket | loraham_rns/interface.py:204-208 | Second frames within four full-frame airtimes are never expired: the whole stream is delivered |
| AirTime.BackToBackIsInTime | loraham_rns/interface.py:204-208 | Fragments sent back to back meet that bound |
| AirTime.MaxAgeIsLeast | loraham_rns/interface.py:206-208 | The timeout is the least time of at least five seconds and at least four full frames |
| Ledger.UnusableRefuses | loraham_rns/duty.py:120-170 | A reservation refuses on account of the ledger, and leaves it as it is, exactly when that is gone, empty, damaged, emptied by others, or holds an entry of no airtime or more than 60 s ahead; every other refusal is a limit or a failed write |
| Ledger.FaceValue | loraham_rns/duty.py:188-215 | Without a recorded clock, or without a step, the stamps are taken as they are |
| Ledger.ReserveOutcome | loraham_rns/duty.py:266-309 | On a usable ledger: granted exactly when the packet fits both limits beside the corrected, unexpired entries and every due write succeeds; and what is then on disk |
| Ledger.FailClosed | loraham_rns/duty.py:266-316 | A grant is charged on disk; every other end refuses and leaves the old, corrected or charged ledger |
| Ledger.ReserveKeepsStamps | loraham_rns/duty.py:161-215 | Every persisted stamp is at most the persisted wall time plus 60 s, after any outcome |
| Ledger.StepAppliedOnce | loraham_rns/duty.py:292-299 | A detected step is persisted whatever the verdict, and a later steady reading corrects nothing |
| Ledger.Recovery | loraham_rns/duty.py:276-309 | A long window plus the skew after a write, through any number of refusals, a packet that fits alone is granted |
| History.LiveOfView | loraham_rns/duty.py:276-277 | Correcting and pruning the entries of the file is what the records show |
| History.OverCreditBound | loraham_rns/duty.py:178-215 | One reading over-credits at most 60 s, and at all exactly on a hidden gain |
| History.CreditOfOneReading | loraham_rns/duty.py:190-215 | The exact credit: a step within a boot is taken out, a forward gap across a reboot counts for nothing |
| History.SteadyHidesNothing | loraham_rns/duty.py:203-214 | A clock that does not gain hides nothing, reboots included |
| History.NothingUnexpiredMissing | loraham_rns/duty.py:276-277 | No charge inside the window (less the tolerance) is missing from what an operation sees |
| History.PersistKeepsSound | loraham_rns/duty.py:217-259 | A write keeps the credit bound of every charge, those already pruned included |
| History.UsedCovers | loraham_rns/duty.py:263-264 | If the charges of a true window still count, what the operation counts as used covers what was charged in it |
| History.CountsTheTrueWindow | loraham_rns/duty.py:263-264 | With a steady clock in one boot it is equal to it |
| History.ChargeKeepsWindows | loraham_rns/duty.py:284-309 | A granted charge keeps the long limit in every window, and the short limit or a lone packet; the windows short by what the writes of the last long window over-credited |
| Claims.ClaimedAtMostCharged | loraham_rns/duty.py:305-309 | Airtime that leans on charges, within each single one, is at most what was charged, in every window of true time |
| Claims.GrantsWithinLimits | loraham_rns/duty.py:284-309 | If the charges keep both limits, so do the grants: every long window is within its limit, every short one too or it holds exactly one grant |
| Claims.UsedAtMostClaimed | loraham_rns/interface.py:354-361 | What is used in a window, each claim at most a delay after its charge, was charged in the window longer by that delay |
| DutyProtocol.StepKeepsInv | loraham_rns/duty.py:47-316 | Every step of every process, crashes and deletions included, keeps exclusion, the one-shot first use and the agreement of disk, working copies and true records |
| DutyGuarantees.FirstUseOnce | loraham_rns/duty.py:60-71 | At most one caller ever gets first use |
| DutyGuarantees.GrantsArePrepaid | loraham_rns/duty.py:305-309 | Every grant has a persisted charge of its own, of exactly the airtime granted; granted airtime is at most charged airtime in every window |
| DutyGuarantees.GrantedAsAsked | loraham_rns/duty.py:266-309 | In every run, what a return grants is the airtime that process last called with |
| DutyGuarantees.OnlyACleanReturnGrants | loraham_rns/duty.py:305-316 | Only an undisturbed return after a completed charge grants; failed writes, failed unlocks and crashes never do |
| DutyGuarantees.DecidesOnEverything | loraham_rns/duty.py:107-176 | Whoever decides has every charge that is unexpired by true age less 60 s per write |
| DutyGuarantees.DecidesOnTheTrueWindow | loraham_rns/duty.py:107-176 | With no hidden gain, every charge younger than the window in true time |
| DutyGuarantees.WipedLedgerRefuses | loraham_rns/duty.py:120-124 | After a deletion outside the lock nothing is ever charged again |
| DutyGuarantees.DeletionSilences | loraham_rns/duty.py:120-124 | So from every deletion on, if nobody is inside the lock when it happens |
| DutyCalls.SoloCallIsReserve | loraham_rns/duty.py:266-316 | An undisturbed call, the first one included, is a run of the protocol with the verdict and disk of the ledger's specification; a grant is one new charge of the airtime asked |
| DutyGuarantees.CreditIsBounded | loraham_rns/duty.py:178-236 | In every run no charge is credited with more than its true age plus 60 s per later write |
| DutyGuarantees.WritesAreCounted | loraham_rns/duty.py:217-236 | The writes counted for a charge are its own and every later write of the ledger |
| DutyGuarantees.CreditIsLogged | loraham_rns/duty.py:178-236 | In every run, with at most its true age plus what the writes since its charge really let through |
| DutyGuarantees.CreditIsTrue | loraham_rns/duty.py:178-236 | In every run without hidden gains, never with more than its true age |
| DutyGuarantees.QuietMeansNoGains | loraham_rns/duty.py:203-214 | A run hides no gain exactly when its writes over-credit nothing |
| DutyGuarantees.AirtimeWithinBudget | loraham_rns/duty.py:263-309 | For every wall clock: if no long window of true time lets through more than a slack of hidden gain, charged and granted airtime keep both limits in every window short by that slack |
| DutyGuarantees.AirtimeWithinLimits | loraham_rns/duty.py:263-309 | In every run without hidden gains charged and granted airtime keep both limits in every window of true time ending at any instant |
| DutyGuarantees.SteadyClockKeepsLimits | loraham_rns/duty.py:263-309 | The same for every run with a steady wall clock, with no further assumption |
| HiddenGains.HiddenGainBreaksTheLimit | loraham_rns/duty.py:213-214 | For every account with a positive long limit and every hidden gain up to 60 s and the window, a run from an empty directory grants twice the limit inside every window short by less than the gain |
| DutyGuarantees.VerdictIsExact | loraham_rns/duty.py:284-309 | In one boot with a steady clock a packet is granted exactly when it fits what was truly charged |
| DutyRecovery.PersistedStampsAreBounded | loraham_rns/duty.py:161-236 | In every reachable state the ledger on disk holds no stamp beyond its clock plus 60 s |
| DutyRecovery.LateVerdictsGrant | loraham_rns/duty.py:276-309 | In every interleaving, whoever decides a long window plus 60 s after the last write, the clock steady since, grants every packet that fits the long limit alone |
| DutyRecovery.TheRadioRecovers | loraham_rns/duty.py:276-309 | After any history, with the ledger there, nobody inside and the clock steady, such a call runs through to its grant |
| DutyAccounts.DutyAccount.Flock | loraham_rns/duty.py:90-105 | The first decisive attempt settles the wait for the lock |
| DutyAccounts.DutyAccount.OpenLocked | loraham_rns/duty.py:47-88 | First use exactly for the call that made the lock file, not after a lost race; a status read creates nothing; a busy or broken lock is an error |
| DutyAccounts.DutyAccount.ReadLedger | loraham_rns/duty.py:107-176 | Fails exactly on an unusable ledger; otherwise gives the corrected entries, and the pending flag says whether the clock stepped |
| DutyAccounts.DutyAccount.WriteLedger | loraham_rns/duty.py:217-259 | Old or new ledger by the outcome; success exactly when the write completed |
| DutyAccounts.DutyAccount.ReserveLocked | loraham_rns/duty.py:274-309 | Verdict and ledger are those of the specification; refused on account of the ledger exactly when it is unusable, and then untouched |
| DutyAccounts.DutyAccount.ReserveAirtime | loraham_rns/duty.py:266-316 | Without the lock nothing is touched and nothing granted; with it the ledger is the specified one, and so is the verdict unless the lock cannot be released |
| DutyAccounts.DutyAccount.Usage | loraham_rns/duty.py:318-340 | Percentages of the corrected entries, zero before first use or without lock support, nothing exactly on an unusable ledger, an error on a busy or stuck lock; nothing is written |
| SpiBus.Bus.AcquireLock | loraham_rns/spibus.py:197-211 | The lock is held exactly when the first decisive attempt took it; a system error and a timeout are told apart |
| SpiBus.Bus.Transact | loraham_rns/spibus.py:213-246 | Nothing reaches the wire without lock and chip select; both are released on every end unless that release itself failed; the error is that of the last thing to fail |
| BusSafety.StepKeepsInv | loraham_rns/interface.py:290-300 | Every step of both threads and all peers keeps the ownership of radio lock, active flag and bus lock |
| BusSafety.OneTransferUnderTheLock | loraham_rns/spibus.py:213-246 | In every interleaving at most one transfer is in progress and its process holds spi0.lock |
| BusSafety.PollNeverOverlapsTransmit | loraham_rns/interface.py:354-373 | Polling never overlaps transmitting or restarting reception |
| BusSafety.UnlockNeverExposesATransfer | loraham_rns/spibus.py:240-246 | No unlock ever leaves a transaction without the lock |
| BusSafety.LockIsNeverLeaked | loraham_rns/spibus.py:238-246 | Unless an unlock itself fails, whoever holds spi0.lock is inside a transaction, after any faults and crashes |
| BusSafety.DoomedExactlyByFaults | loraham_rns/interface.py:313-336 | In every run a thread ends exactly by a fault of its own or a crash; a failed transaction is never taken for a good one, a stray exception stops nobody |
| BusSafety.DeathFreesTheLock | loraham_rns/spibus.py:197-204 | A process may die at any moment, and then no longer holds the lock |
| BusSafety.RxTurn | loraham_rns/interface.py:290-312 | From every start the RX thread can poll and come back to the start |
| BusSafety.TxTurn | loraham_rns/interface.py:354-373 | So can the TX worker transmit, restart reception and come back |
| BusSafety.PeerTurn | loraham_rns/spibus.py:213-246 | So can every peer transfer |
| BusSafety.FlockAloneIsNotEnough | loraham_rns/interface.py:297-300 | Without the second look under the radio lock, a run from every start puts both threads on the wire, and an unlock then bares a transfer |
| TxPipeline.EveryPacketIsAccounted | loraham_rns/interface.py:230-252 | Every packet offered online is in exactly one place, packets leave in acceptance order, the queue never exceeds 64 |
| TxPipeline.EveryFrameIsPrepaid | loraham_rns/interface.py:337-373 | Every keyed frame fits the radio and its packet has exactly one grant; keyed airtime never exceeds granted airtime |
| TxPipeline.KeyedAirtimeIsPrepaid | loraham_rns/interface.py:340-346 | The same with the radio's time on air, for every modem setting |
| TxPipeline.NothingIsRefunded | loraham_rns/interface.py:363-368 | Grants and keyed frames are never taken back |
| TxPipeline.StopIsFinal | loraham_rns/interface.py:321-335 | Once stopped, only the packet already taken is ever keyed |
| Carriage.StepCarries | loraham_rns/interface.py:321-373 | Every step keeps what is on the air the frames of the packets, in order |
| Carriage.WhatGoesOut | loraham_rns/interface.py:321-373 | In every run frames are keyed packet by packet in the order of acceptance; every finished packet has had a beginning of its own frames on the air, all if transmitted, none if dropped for its airtime; the packet in hand its first ones |
| Carriage.GrantsByLength | loraham_rns/interface.py:340-346 | Every grant names an accepted packet and is of the airtime of its length: one frame, one with a header, or a full one and the rest |
| Carriage.WithoutFraming | loraham_rns/interface.py:340-342 | Without framing a transmitted packet has had exactly itself on the air, any other itself or nothing, and each grant is the time on air of its length |
| Carriage.NothingTooLong | loraham_rns/interface.py:340-361 | Every frame the worker may hand to the radio, radiated or not, is at most 255 bytes |
| Delivery.PacketHeard | loraham_rns/framing.py:55-120 | The frames of a packet, heard together from a state they do not glue to, deliver it and leave nothing pending |
| Delivery.WhatIsSentIsDelivered | loraham_rns/framing.py:55-120 | In every run that breaks off no packet, a reassembler that hears what was keyed delivers exactly the packets transmitted, in the order of acceptance |
| Prepayment.StepKeepsInv | loraham_rns/interface.py:337-373 | Every step of interfaces and account, crashes and restarts included, keeps each packet on the air on a granted charge of its own and exact airtime |
| Prepayment.NobodyIsHeldBack | loraham_rns/interface.py:321-373 | Joining pipelines and account rules out no step of either: interfaces run on while one of them reserves, others use the ledger, anything may crash |
| Prepayment.AccountRuns | loraham_rns/interface.py:345-348 | What the interfaces do to the account is a run of the ledger protocol |
| Prepayment.GrantIsTheAccounts | loraham_rns/interface.py:337-348 | The account answers for the packet next in order: a grant in the pipeline is one grant of the account, of the airtime of that packet's length, charged in full, and its own frames follow; no other answer grants on either side |
| Prepayment.EveryKeyIsRecorded | loraham_rns/interface.py:357-368 | Every frame a pipeline keys is recorded with its time on air, its charge and its instant, and nothing else is |
| Prepayment.EveryFrameIsCharged | loraham_rns/interface.py:343-368 | In every run, every frame keyed by any process was granted before, and per charge the frames keyed take at most what was charged |
| Prepayment.KeyedAtMostCharged | loraham_rns/interface.py:343-368 | So what is keyed on the charges of any window of true time is at most what was charged in it |
| Prepayment.OnAirAtMostCharged | loraham_rns/interface.py:354-368 | Frames are keyed after their charge; if none later than a delay, what is keyed in any window was charged in the window longer by the delay |
| FirstPacket.FirstPacketGoesOut | loraham_rns/interface.py:230-373 | For every configuration, packet and clock: a packet that fits the long limit goes out from an empty directory, charged once in full and keyed whole |
| Interface.LoRaSPIInterface.ProcessOutgoing | loraham_rns/interface.py:230-252 | Offline, oversize (above 508 bytes with framing, 255 without) and overflow (64 queued) change at most their counter; anything else is appended with its time |
| Interface.LoRaSPIInterface.Fail | loraham_rns/interface.py:273-288 | The first fault is recorded, stops both loops and goes offline; a later one changes nothing |
| Interface.LoRaSPIInterface.AwaitReply | loraham_rns/interface.py:345-352 | Refusals are retried until a grant, an error, or a refusal more than 120 s after the packet was queued |
| Interface.LoRaSPIInterface.KeyFrames | loraham_rns/interface.py:357-368 | Frames are keyed in order, confirmed or not, up to the first that raises |
| Interface.LoRaSPIInterface.KeyUp | loraham_rns/interface.py:354-373 | Transmitted exactly when no frame raises and reception restarts; what was keyed is the first frames, in order; a bus or radio fault stops the interface and is recorded, another exception is not; the active flag is cleared last, on every end |
| Interface.LoRaSPIInterface.Transmit | loraham_rns/interface.py:337-373 | Nothing is keyed without a grant; one grant for the airtime of all frames; every way the account, a frame or the restart can end |
| Interface.LoRaSPIInterface.TakeNext | loraham_rns/interface.py:326-340 | The oldest packet is popped and framed; without framing it is its own frame |
| Interface.LoRaSPIInterface.ServeNext | loraham_rns/interface.py:321-335 | The oldest packet, and only that one, is taken and finished, with one grant of the airtime of its length or none; what is keyed is the first of its own frames (without framing the packet itself), all if transmitted; nothing when stopped or empty |
| Policy.HoldsEveryFrequency | loraham_rns/interface.py:53-61 | A segment holds a channel exactly when it holds every frequency within half the bandwidth of its centre |
| Policy.CeilingIsTheSegments | loraham_rns/interface.py:37-63 | A ceiling exists exactly when a segment holds the whole channel, is that segment's, and the segment is unique |
| Policy.SharedEdgeIsStrict | loraham_rns/interface.py:39-40 | A zero-width channel on the shared edge gets the stricter ceiling |
| Policy.BandPlan868 | loraham_rns/interface.py:37-63 | The ceiling of a channel of band 868 by the frequencies it reaches: five stretches with their percentages, and none anywhere else |
| Policy.BandPlan433 | loraham_rns/interface.py:37-63 | The same for band 433; no other band has any |
| Policy.ReservedIsRefused | loraham_rns/interface.py:33-36 | A channel that reaches one frequency of an alarm-only gap, or beyond its band, has no ceiling |
| Policy.AcrossIsRefused | loraham_rns/interface.py:50-55 | Nor has one that reaches across 865 MHz |
| Policy.AcceptedOn868 | loraham_rns/interface.py:113-143 | The configurations accepted on band 868, exactly, in frequencies and percentages |
| Policy.AcceptedOn433 | loraham_rns/interface.py:113-143 | And on band 433; none on any other |
| Compliance.PermittedIsBounded | loraham_rns/interface.py:113-143 | An accepted configuration limits the account to an hour's share of its segment, and that is the only one around the channel |
| Compliance.EveryStretchIsUnderTheCeiling | loraham_rns/interface.py:113-143 | With accepted limits and any wall clock, charged and granted airtime of every hour less the hidden gains stay under an hour's share of the one segment around the channel |
| Compliance.BurstsAreLimited | loraham_rns/interface.py:133-143 | In every 15 seconds less the hidden gains the airtime charged is within the short limit, or it is one packet's |
| Compliance.EveryHourIsUnderTheCeiling | loraham_rns/interface.py:113-143 | Without hidden gains, of every hour of true time |
| Compliance.OnAirIsUnderTheCeiling | loraham_rns/interface.py:113-143 | The same for the frames any number of interfaces key, at the instants they key them, with the hour shorter by the longest delay from charge to key |
| RfRecord.RxIsLine | loraham_rns/rflog.py:54-56 | A receive record has the common shape with a harmless prefix |
| RfRecord.TxIsLine | loraham_rns/rflog.py:59-61 | So has a transmit record |
| RfRecord.RecordShape | loraham_rns/rflog.py:48-61 | ASCII, one newline at the end, no quote inside the quoted field, one character per byte |
| RfRecord.AsciiShows | loraham_rns/rflog.py:48-51 | Character by character: printable ASCII other than quote and backslash is shown, anything else is a dot |
| RfRecord.DecimalRoundTrip | loraham_rns/rflog.py:54-61 | The length field reads back as the number |
| RfRecord.RxFieldsReadBack | loraham_rns/rflog.py:7-15 | Cut at its spaces, a receive record gives time, kind, measurements, length and hex field, named and ordered as documented |
| RfRecord.TxFieldsReadBack | loraham_rns/rflog.py:7-15 | So does a transmit record, with its outcome |
| RfRecord.RecordRoundTrip | loraham_rns/rflog.py:54-61 | Reading a record gives back the payload |
| RfRecord.LogRoundTrip | loraham_rns/rflog.py:54-61 | A log of any number of records reads back as the same payloads |
| RfRecord.EventsRoundTrip | loraham_rns/rflog.py:54-61 | Any mixture of receive and transmit records, in the formats written, reads back as their payloads in order |
| RfLog.RollsExactlyWhenFull | loraham_rns/rflog.py:134-151 | A line that fits under the cap is appended and `.1` left alone; one that does not moves the live file there |
| RfLog.SmallLogsStayWhole | loraham_rns/rflog.py:134-151 | While the whole history fits under the cap, live is the whole history |
| RfLog.LiveHoldsEverything | loraham_rns/rflog.py:134-151 | Whatever copies and truncates fail, the live file holds every line since the last truncate |
| RfLog.Retention | loraham_rns/rflog.py:134-151 | Live stays within the cap; `.1` followed by live is a suffix of the history cut at line boundaries; `.1` is never empty after a rollover, and a line is moved or given up only for a full segment |
| RfLog.EmptySegmentExactlyWhen | loraham_rns/rflog.py:137-145 | An empty segment is written exactly when live is empty and the line is over the cap |
| RfLog.Log.CopyToPrevious | loraham_rns/rflog.py:121-132 | Reads of any size copy the live file whole |
| RfLog.Log.AppendPieces | loraham_rns/rflog.py:146-151 | Writes of any size append the line whole |
| RfLog.Log.WriteLine | loraham_rns/rflog.py:109-154 | By the lengths: append, or roll over and start anew, as copy and truncate allow; a closed log does nothing |

## Left out

- `loraham_rns/node.py`, `loraham_rns/client.py`, `plugins/`, `scripts/`: process supervision and calls into Reticulum that cannot be seen.
- `loraham_rns/sx127x.py`, `loraham_rns/sx126x.py`: register writes and hardware waits; `poll_rx`, `transmit` and `start_rx` are sequences of bus transactions that may fail, and nothing is claimed about the TX-enable line.
- The JSON text, file modes, O_NOFOLLOW and fsync of the ledger: the disk is one value that a write leaves old or new, and anything that does not parse is `Damaged`.
- The polling loops of `_flock` and of the wait for the creator's ledger: in the protocol a waiting process may take the free lock or give up at any moment, which includes every timing.
- Environment changes of the ledger other than deletion, such as restoring an old copy.
- Several clock readings inside one locked operation: one sample stands for all of them.
- `detach` and the constructor's hardware set-up; several concurrent callers of `process_outgoing`.
- Interface.LoRaSPIInterface.Transmit: a fault reported by the RX thread in the middle of the call is covered by the pipeline's steps, not by the sequential method.
- Interface.LoRaSPIInterface.KeyUp: taking the radio lock around the active flag and the restart is in `BusSafety`, not in the sequential method.
- DutyAccounts.DutyAccount.OpenLocked: the bounded wait for the creator's ledger before locking is not in the method; it changes no outcome but its timing.
- DutyAccounts.DutyAccount.WriteLedger: the temporary file, partial writes, rename and syncs are one outcome, the old or the new ledger.
- Compliance.OnAirIsUnderTheCeiling: the delay between a charge and the keying of its frames is a parameter; the source does not bound it.
- Prepayment.EveryFrameIsCharged: a restarted process begins with an empty queue, and status reads are made by processes without an interface.
- The content of `.1` after a failed copy, external truncation of the log, and lines lost to a failing write.
- The two log writers take one lock for a whole line, so their interleavings are the orders of whole lines, and the retention theorems are about every order.
- Floating-point rounding, `loraham_rns/profiles.py`, `rnode_preamble`, `bitrate`, power and IFAC checks: constants and single comparisons that no property above depends on.
