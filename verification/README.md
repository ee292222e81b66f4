# Verification of the DALI service's protocol logic

This project models, in Dafny, the parts of the `wb-mqtt-dali` service whose correctness depends on
long interactions: addressing a DALI bus by random address, putting bus traffic back in order, reading
colour writes off the bus, keeping retained messages across broker outages, and the polling, reading
and queueing around them. `dafny verify dfyconfig.toml` checks all of it.

Where the service changes state step by step, the model is a class with the same fields and methods.
Each method is proved against a specification function of the old state (`Step`, `Arrive`, `TakeTurn`,
`Run`), or against an invariant, and the laws are proved about those for all inputs and all runs.

## The bus

`SearchBus` is a bus of gear with a random address, a short address and an initialisation mode
(disabled, enabled, withdrawn), after IEC 62386-102. What gear does with a frame is fixed; what the
line does to an answer, which device ignores a command and what RANDOMISE draws is decided by a
`World`, about which nothing is assumed unless a contract says so:

- `Lossless`: every COMPARE answer arrives as it was given;
- `Reliable`: COMPARE may lose answers but invents none, and a confirming COMPARE does not lose both
  of its repeats;
- `ClearShorts`: answers to QUERY and VERIFY SHORT ADDRESS arrive as they were given;
- `ClearQueries`: answers to all other queries than COMPARE arrive as they were given; answers that
  differ collide;
- `Obedient`: gear carries out what it is told;
- `Faithful`: `Reliable`, `ClearQueries` and `Obedient` together, so that COMPARE answers are all that
  can get lost.

A contract without one of these holds on every bus, however it misbehaves. The termination of every
search loop and the safety of every programmed address are of that kind.

## Main results

- A whole commissioning run (`SmartExtend`) on an addressable bus of at most 64 devices ends with the
  record equal to the bus, distinct random and distinct valid short addresses, and every device keeping
  a random or short address that it had alone. A faithful bus whose gear has set and distinct random
  addresses, and valid short ones or none, is addressable. If draws are new (`NewDraws`), so is every
  faithful bus whose gear can be told apart (`Separable`): new gear may have neither address, gear may
  share random addresses or lack them as far as its short addresses can be used to re-roll it, and gear
  without a short address may share the random address of a device with one of its own, which is kept for
  that device if the configuration knows it (`Backed`); `DuplicateIsSeparated` is such a run. Being
  separable is exactly what leaves a tidy bus after the poll (`RerollTidies`), and all this can be met for
  every separable bus (`SeparableCanBeAddressed`). A run can fail in one way only, a search that gets
  stuck: exactly after three searches in a row that brought nothing new, each of which lost an answer. It
  leaves every unique short address in place, and a lossless bus rules it out. Addresses never run out,
  by a pigeonhole argument. The device list rebuilt from the result is the bus (`Recommission`).
- On any bus whose answers to queries arrive as given, whatever gear is on it, whatever it ignores and
  however many COMPARE answers are lost, every short address that a run programs was silent at the poll,
  was held by nobody and recorded for nobody when it was programmed, and was not programmed before.
- The search finds exactly the lowest participant despite lost answers. A pass lists every random address
  once in ascending order (`BinarySearch`), unless three searches in a row lost an answer, and all of it
  ends on every bus. A device that answers is treated as its answer, the record, the configuration and the
  poll say, in every branch and on every bus (`ProcessFoundDevice`).
- The stand-alone tool (`AddressBus`) has every device draw anew; if the draws differ, its list holds each
  device once, with distinct short addresses exactly if no two devices held one before.
- The reorder buffer loses nothing, keeps the order for every arrival order of distinct ids, and sorts.
- The colour decoder reports only what was written, and inverts every sequence of command builders.
- The retained mirror brings the broker to the last message published for every topic, clears included,
  and replays live topics in the order of their last appearance.
- No write is lost by coalescing; outside quiescent mode none is refused, and a queue that runs empty has
  executed the last payload of every control. A polling cycle ends, and asks exactly the controls that are
  due when a device's round begins, each once and in order. Colour and
  energy read cycles emit at most one event each, exactly one unless cancelled, for all that they read.
  A resumed memory read is exact. The background fetch is fair and ends, whichever fetches fail.

## Where the code does less than its comments or documentation

The lemmas named give an input on which the expected law fails, and the exact condition under which it
holds.

- A flush of the reorder buffer is said to skip duplicates. It compares with the cursor from before the
  flush, so an id buffered twice is published twice (`DuplicateIsRepublished`; over every run,
  `RunAscendsExactlyWhen`).
- A transaction whose ACTIVATE was missed is said not to bleed into the next. It does unless the next
  one's first DTR write finds no register marked as written (`AbandonedTransactionBleeds`;
  `BuildersAreInvertedExactlyWhen`).
- A short address that the poll missed is kept when it is reported, but stays free and can be handed
  out again (`LostPollAnswerCollides`, the steps of a run; `KeptWhileFreeIsLost`). An address that is given was
  recorded for another device exactly if it had been kept while it was free (`AssignNew`, on every bus).
- The classification of devices is a partition only if repeated random addresses match on both sides
  (`SharedRandomBreaksPartition`; `PartitionExactlyWhen`).
- A cancelled colour read can still report and change the picture, if its last part was in flight
  (`CancelledCycleReports`; `OrphanEmitsExactlyWhen`).
- The background fetch does not move its cursor when a device is removed, so the entry whose turn it was
  can lose it (`RemovalDelaysTheNext`; `RemovalKeepsTurnExactlyWhen`).
- A fetch remembers its position across an await. Were a device removed meanwhile, another entry could
  leave the set, or the step fail (`RemovalTakesOutAnother`; `TakesOutFetchedExactlyWhen`). The scheduler
  does not rule this out; its one user does, by removing devices and stepping the fetch in the same loop
  (wb/mqtt_dali/application_controller.py:1420-1535).
- The delta-encoded search address is not corrected for gear that missed a write
  (`MissedWriteIsNotRepaired`; `DeltaExact`).
- Clamping keeps a colour temperature inside the limits only if these are in order (`ClampExact`).
- The comment in `replay_retained` says "order of first appearance"; a topic that was cleared and
  published again moves to the end, so it is the order of last appearance (`ReplaySendsInOrder`).

The laws of the reorder buffer need a queue size of at least zero, the bound on its length one of at
least one.

## Model

| member | source | states |
|---|---|---|
| SearchAddress.SearchAddressWriter.Commands | wb/mqtt_dali/commissioning.py:145-156 | the frames are the parts that differ from the remembered address, which becomes the new one |
| SearchAddress.SearchAddressWriter.SetSearchAddr | wb/mqtt_dali/commissioning.py:158-159 | the bus holds the full 24-bit address, no gear is touched, and no more frames than differing parts are spent |
| SearchAddress.SearchAddressWriter.Compare | wb/mqtt_dali/commissioning.py:161-166 | the bus holds the address and the result is whether anything but silence was heard, a framing error included |
| SearchAddress.DeltaSetsSearch | wb/mqtt_dali/commissioning.py:145-156 | heard by listeners in sync, the changed parts alone have the effect of the full write |
| SearchAddress.WritesReachLast | wb/mqtt_dali/commissioning.py:145-156 | after any sequence of delta writes the bus is on the last address, whatever it started with |
| SearchAddress.DeltaExact | wb/mqtt_dali/commissioning.py:149-155 | for listeners out of sync: the address is reached if and only if they hold every part the writer leaves out |
| SearchAddress.MissedWriteIsNotRepaired | wb/mqtt_dali/commissioning.py:149-155 | an input on which it is not: a listener that missed the high byte stays on the wrong address |
| SearchAddress.SendAll | wb/mqtt_dali/commissioning.py:613-613 | a batch has the effect and the answers of its frames sent in order |
| SearchAddress.Delta | wb/mqtt_dali/commissioning.py:145-156 | at most three frames, and none exactly when the address is the one remembered |
| SearchBus.CompareTruth | wb/mqtt_dali/commissioning.py:225-227 | COMPARE is answered exactly when an enabled device has a random address at or below the search address |
| Finder.BinarySearchAddressFinder.CompareWithRetry | wb/mqtt_dali/commissioning.py:225-238 | if no repeat loses both answers and silence is never turned into an answer, the verdict is the truth |
| Finder.BinarySearchAddressFinder.Probe | wb/mqtt_dali/commissioning.py:219-221 | nothing is asked below the bound; an answered probe proves a participant; on a lossless bus the probe is exact |
| Finder.BinarySearchAddressFinder.Bisect | wb/mqtt_dali/commissioning.py:209-223 | always in [low, 0xFFFFFF], on any bus; with lost answers a participant is at or below it, with none lost nobody is below it |
| Finder.DecideBit | wb/mqtt_dali/commissioning.py:215-222 | the bit arithmetic of a bisection step: OR with the mask is addition, and the probe is the end of the lower half |
| Finder.BinarySearchAddressFinder.FindNextDevice | wb/mqtt_dali/commissioning.py:184-205 | despite lost answers: nothing exactly when nobody participates, otherwise unconfirmed or exactly the lowest participating address with the bus left on it; never unconfirmed on a lossless bus |
| Enumeration.QuerySelected | wb/mqtt_dali/commissioning.py:834-840 | what is heard of three queries, the first answer that can be read; it is the selected gear's if queries are clear |
| Enumeration.PassStarts | wb/mqtt_dali/commissioning.py:801-810 | TERMINATE and INITIALISE make the whole bus participate, so the invariant of a pass holds with nothing listed |
| Enumeration.LowestIsNext | wb/mqtt_dali/commissioning.py:814-824 | the lowest participant is above all that is listed and nobody lies between |
| Enumeration.PassContinues | wb/mqtt_dali/commissioning.py:834-844 | query and WITHDRAW of the address found keep the invariant with the address appended |
| Enumeration.PassEnds | wb/mqtt_dali/commissioning.py:814-817 | when nobody participates or the top address is listed, the list is every random address on the bus |
| Enumeration.NextAddress | wb/mqtt_dali/commissioning.py:815-817 | a find is the lowest participant, above the list; nothing found means the list is complete |
| Enumeration.WithdrawSelected | wb/mqtt_dali/commissioning.py:834-841 | the lowest participant, queried and withdrawn, extends the pass |
| Enumeration.BinarySearch | wb/mqtt_dali/commissioning.py:798-852 | ends on every bus; fails exactly when the last three searches were unconfirmed or repeated the last find, and then at once; with trustworthy confirmations a result lists every random address once, strictly ascending, and there is one unless three searches in a row lost an answer; gear that obeys is left out of its initialisation mode |
| Enumeration.SearchUntilDone | wb/mqtt_dali/commissioning.py:812-844 | the loop of it: what was found is exactly the result |
| Enumeration.TallyEnds | wb/mqtt_dali/commissioning.py:819-832 | over every history of searches kept by the loop: the count of failures is that of the searches in vain at its end, it was below three before, and three of them have lost an answer each |
| Enumeration.ThriceIsThree | wb/mqtt_dali/commissioning.py:184-205 | three searches in a row that lost an answer lost three different COMPAREs |
| Enumeration.LosslessNeverThrice | wb/mqtt_dali/commissioning.py:184-205 | which a lossless bus rules out |
| Allocation.SafeHandOut | wb/mqtt_dali/commissioning.py:270-285 | handing out a free address keeps the safety invariant of a run on any bus |
| Allocation.SafeRecord | wb/mqtt_dali/commissioning.py:265-268 | so does recording a device, one at a free address being noted as late |
| Vacancy.NobodyAfterPoll | wb/mqtt_dali/commissioning.py:573-580 | after a complete poll nobody holds a free address |
| Vacancy.NobodyAfterHandOut | wb/mqtt_dali/commissioning.py:270-302 | programming a free address leaves nobody at what is still free, whoever carried it out |
| Vacancy.ReportedIsTaken | wb/mqtt_dali/commissioning.py:355-360 | a short address that gear reports is not free while nobody holds a free one |
| Vacancy.BatchHearsTaken | wb/mqtt_dali/commissioning.py:601-615 | so is none that the batch for known random addresses hears |
| Vacancy.NothingCollides | wb/mqtt_dali/commissioning.py:454-458 | then no address handed out was held by any gear at that moment, nor recorded for any |
| CommissioningRuns.KeptWhileFreeIsLost | wb/mqtt_dali/commissioning.py:472-478 | a device that reports a free address keeps it and the address stays free; the next device given that address takes its place in the record |
| CommissioningRuns.LostPollAnswerCollides | wb/mqtt_dali/commissioning.py:472-478 | a bus on which that happens: the answers of one address to the poll are lost, and the steps of a run leave two devices there, with nothing left to search |
| Allocation.AddressesDoNotRunOut | wb/mqtt_dali/commissioning.py:287-295 | pigeonhole: while a device of at most 64 still needs an address, one is free |
| Allocation.LedgerKeeps | wb/mqtt_dali/commissioning.py:472-478 | a device that keeps its address extends the account of who has been processed |
| Allocation.LedgerAssigns | wb/mqtt_dali/commissioning.py:446-458 | a device given an address nobody had extends the account, and takes no address from a unique holder |
| Allocation.RecordedHolderKept | wb/mqtt_dali/commissioning.py:423-458 | a device that is readdressed because its address is recorded did not have that address alone |
| Allocation.LedgerComplete | wb/mqtt_dali/commissioning.py:675-680 | once all are processed the record is the bus, short addresses are valid and distinct, unique ones are kept |
| Polling.PresentShorts | wb/mqtt_dali/commissioning.py:731-764 | the short addresses that answer, ascending; exactly those on the bus if no answer is lost |
| Polling.QueryBytes | wb/mqtt_dali/commissioning.py:855-866 | the three bytes, those that fail asked for again: no more than the truth, all of it that can be read, and a byte is missing exactly if it was asked for in vain three times |
| Polling.AskByte | wb/mqtt_dali/commissioning.py:855-866 | one such query, and what of it was missed |
| Polling.ReadRandom | wb/mqtt_dali/commissioning.py:855-870 | a random address is read exactly when there is gear at the short address and all of it holds that one |
| Polling.ReadRandoms | wb/mqtt_dali/commissioning.py:511-523 | one reading for each short address at most; what is read is on the bus, and nothing that agrees is left out |
| Polling.RandomiseBy | wb/mqtt_dali/commissioning.py:333-346 | the whole new bus: the gear the target names has drawn and participates, all other gear keeps its random address and is disabled, no short address moves |
| Polling.UnambiguousDistinct | wb/mqtt_dali/commissioning.py:526-547 | the readings kept after the check for duplicates have distinct random addresses |
| Polling.Rerolled | wb/mqtt_dali/commissioning.py:526-548 | RANDOMISE goes to exactly the short addresses whose reading was shared or unset; the others are all kept |
| Polling.CleanIsUnambiguous | wb/mqtt_dali/commissioning.py:526-544 | distinct and set readings are all kept and no RANDOMISE is sent |
| Polling.RandomiseDuplicates | wb/mqtt_dali/commissioning.py:526-550 | keeps and sends as above; the gear at those short addresses and no other has drawn a random address |
| Rerolling.SentExactlyWhen | wb/mqtt_dali/commissioning.py:526-550 | RANDOMISE goes to the short address of a device if and only if all gear there agrees on its random address and that is unset or read at another short address too |
| Rerolling.RerollTidies | wb/mqtt_dali/commissioning.py:526-566 | where draws are new, what re-rolling leaves is tidy if and only if the bus was separable; the draws to come are as new for it, and a random address that was one device's alone is kept |
| Rerolling.DuplicatesAfter | wb/mqtt_dali/commissioning.py:526-550 | gear without a short address keeps its random address, and shares it after re-rolling exactly with what it shared it with before that was not re-rolled |
| Rerolling.PollVouches | wb/mqtt_dali/commissioning.py:526-568 | a device with a short address of its own, whose random address is kept and shared by gear without one, is among the readings kept and in the configuration |
| Rerolling.KeptIsRead | wb/mqtt_dali/commissioning.py:526-566 | gear that agrees and was not re-rolled is among the readings kept |
| Rerolling.VouchedIsTrusted | wb/mqtt_dali/commissioning.py:482-495 | then the configuration and the poll agree on exactly its short address for that random address |
| Rerolling.OwnShortsAreSeparable | wb/mqtt_dali/commissioning.py:526-550 | gear with short addresses of its own is separable whatever random addresses it shares or lacks |
| Rerolling.SeparableCanBeAddressed | wb/mqtt_dali/commissioning.py:497-694 | for every separable bus there is a lossless world that meets all that the run theorem assumes |
| Exactness.DrawsCanBeNew | wb/mqtt_dali/commissioning.py:548-550 | for every bus of at most 64 devices there is a world in which all answers arrive, gear obeys and draws are new |
| Rerolling.FirstReadings | wb/mqtt_dali/commissioning.py:526-566 | what was kept of the first readings is on the bus and distinct, and an addressable bus has become one that a pass can process, its shared random addresses confirmed |
| Rerolling.BothReadings | wb/mqtt_dali/commissioning.py:552-566 | the readings before and after re-rolling together are on the bus, and distinct if that is tidy |
| Rerolling.AllRead | wb/mqtt_dali/commissioning.py:510-566 | nothing that can be read is left out of them: what has drawn is read again |
| Polling.KeptStillReads | wb/mqtt_dali/commissioning.py:526-566 | what was read and kept is still on the bus after the others have drawn |
| Polling.FreeAfterPoll | wb/mqtt_dali/commissioning.py:573-580 | 0..63 in order without the addresses that answered |
| Polling.AppendStored | wb/mqtt_dali/commissioning.py:587-597 | known devices first, then every stored one whose random address is not there yet; distinct if the poll was |
| Exactness.ExactCases | wb/mqtt_dali/commissioning.py:348-480 | on a faithful bus an answer leaves five cases: nobody there, gear with neither address, a device to keep among duplicates of it, an address to keep, one to be given |
| Exactness.MixedIsDuplicated | wb/mqtt_dali/commissioning.py:362-392 | on a tidy bus, gear at one random address that does not agree on its short address is a device with a short address of its own and duplicates without one |
| Exactness.ExactTrusts | wb/mqtt_dali/commissioning.py:367-379 | recording that one preserves the invariant; the others are marked |
| Exactness.ExactKeeps | wb/mqtt_dali/commissioning.py:472-478 | keeping a valid address not recorded yet preserves the invariant of the run |
| Exactness.ExactAssigns | wb/mqtt_dali/commissioning.py:446-458 | so does programming a free address into the selected device |
| Exactness.ExactSkips | wb/mqtt_dali/commissioning.py:362-366 | so does passing over a random address nobody has, or leaving gear with neither address for the next pass |
| Exactness.Redraws | wb/mqtt_dali/commissioning.py:690-692 | RANDOMISE for the gear without short addresses begins a pass in which the invariant holds, with random addresses that are set and shared by nobody |
| Exactness.MarksLeft | wb/mqtt_dali/commissioning.py:675-691 | what a pass leaves marked is the gear without a short address that has no random address to itself, if there is any |
| Exactness.ExactWithdraws | wb/mqtt_dali/commissioning.py:607-608 | so does WITHDRAW, and the gear withdrawn is exactly that at the search address |
| Exactness.AnswersAsAtStart | wb/mqtt_dali/commissioning.py:600-616 | an address not processed yet answers as it would have at the start, although the batch is answered before any of it is processed |
| Exactness.RestParticipates | wb/mqtt_dali/commissioning.py:633-637 | what is left to process is what still participates, and the lowest participant is not processed yet |
| Exactness.ExactKeepsUnique | wb/mqtt_dali/commissioning.py:584-594 | at every moment of a run each device whose short address was unique still has it |
| Commissioning.PutKeepsDistinct | wb/mqtt_dali/commissioning.py:251-253 | a list of devices written into a dictionary by short address keeps one entry for each |
| Commissioning.Commissioning.constructor | wb/mqtt_dali/commissioning.py:242-263 | nothing found yet, and exactly the given devices stored, keyed by short address |
| Commissioning.Commissioning.AssignNew | wb/mqtt_dali/commissioning.py:446-458 | programs the address picked and records it; it was recorded for another device exactly if it had been kept while free |
| Commissioning.Commissioning.AddDevice | wb/mqtt_dali/commissioning.py:265-268 | records the device at its short address; a new one goes to the end of the iteration order |
| Commissioning.PickedKeepsStored | wb/mqtt_dali/commissioning.py:270-285 | the address picked is the stored one of the random address if that is free, else the lowest free one |
| Commissioning.Commissioning.PickNewShortAddress | wb/mqtt_dali/commissioning.py:270-285 | takes exactly that address off the free list; none exactly when none is free |
| Commissioning.ProgramAndVerify | wb/mqtt_dali/commissioning.py:302-328 | programs the selected gear only; confirmed exactly if VERIFY is heard or the address is read back; so it is with clear answers and somebody selected |
| Commissioning.ConfirmShort | wb/mqtt_dali/commissioning.py:312-328 | confirmed exactly if VERIFY is heard or the address is read back |
| Commissioning.Commissioning.ProgramPicked | wb/mqtt_dali/commissioning.py:297-328 | every address programmed is in the log with what it was picked from, confirmed or not |
| Commissioning.Commissioning.AssignShortAddress | wb/mqtt_dali/commissioning.py:287-328 | the address picked leaves the free list, the gear has it and the log tells of it, confirmed or not; each error and its cause |
| Commissioning.Commissioning.PollConfirmedConfigShort | wb/mqtt_dali/commissioning.py:482-495 | the one short address the configuration and the poll agree on for the random address, if there is exactly one |
| Commissioning.Commissioning.ResetShort | wb/mqtt_dali/commissioning.py:384-389 | takes the short address from all gear at the random address and from no other |
| Commissioning.Commissioning.TrustConfigOrReset | wb/mqtt_dali/commissioning.py:367-392 | several holders: the poll-confirmed one is recorded, or all of them lose their short address |
| Commissioning.Commissioning.ProcessFoundDevice | wb/mqtt_dali/commissioning.py:348-480 | answer by answer, with its own table of what must follow: what is recorded, handed out, reset and marked for RANDOMISE; colliding answers record the one confirmed device or reset all, and mark the gear without a short address; on a faithful bus exactly the duplicates and gear with neither address are marked, and the invariant holds |
| Commissioning.TreatmentIsVerdict | wb/mqtt_dali/commissioning.py:348-480 | the treatments taken by the branches are those of that table |
| Commissioning.Commissioning.ProcessCollision | wb/mqtt_dali/commissioning.py:362-392 | colliding answers: one confirmed device is recorded or all lose their short address, and the rest is marked; among duplicates on a faithful bus exactly the one with a short address is recorded |
| Commissioning.Commissioning.ProcessNext | wb/mqtt_dali/commissioning.py:616-616 | what is marked is outstanding, and no address becomes free again |
| Commissioning.Commissioning.ProcessAnswered | wb/mqtt_dali/commissioning.py:394-480 | the same for a readable short address |
| Commissioning.Commissioning.ProcessUnaddressed | wb/mqtt_dali/commissioning.py:394-410 | the same for MASK: a free address is assigned unless the random address is unset |
| Commissioning.Commissioning.ProcessTaken | wb/mqtt_dali/commissioning.py:423-458 | the same for a recorded address: kept, reassigned or reset, by what is recorded there |
| Commissioning.Commissioning.ProcessUntaken | wb/mqtt_dali/commissioning.py:459-478 | the same for an address nobody recorded: kept unless the random address is unset |
| Commissioning.BatchRuns | wb/mqtt_dali/commissioning.py:599-613 | the batch leaves the bus on the last known address and programs nothing |
| Commissioning.BatchWithdraws | wb/mqtt_dali/commissioning.py:599-613 | the batch withdraws exactly the gear with a known random address |
| Commissioning.BatchAnswers | wb/mqtt_dali/commissioning.py:601-615 | the answer at the k-th remembered position is the truth about the k-th random address, although parts of the search address are left out |
| Commissioning.BatchIsHeard | wb/mqtt_dali/commissioning.py:599-616 | together: what the batch does to the bus and what each of its queries is answered |
| Commissioning.SendBatch | wb/mqtt_dali/commissioning.py:601-615 | sends it and picks the answer to each query |
| Commissioning.BuildBatch | wb/mqtt_dali/commissioning.py:601-608 | builds that batch and the positions of its queries |
| Commissioning.Commissioning.QueryKnown | wb/mqtt_dali/commissioning.py:599-615 | one answer for each known random address, and all of them withdrawn |
| Commissioning.Commissioning.ProcessKnown | wb/mqtt_dali/commissioning.py:614-616 | after it the known random addresses are processed, none in conflict on a faithful bus |
| Commissioning.Commissioning.QueryAndWithdraw | wb/mqtt_dali/commissioning.py:657-664 | the answer is that of the start of the run, and the gear leaves the search |
| Commissioning.Commissioning.HandleFound | wb/mqtt_dali/commissioning.py:657-667 | a device found is processed and withdrawn in one step of the invariant |
| Commissioning.Commissioning.FindNext | wb/mqtt_dali/commissioning.py:634-637 | what is found has not been processed; nothing found means all is processed |
| Commissioning.Commissioning.SearchLoop | wb/mqtt_dali/commissioning.py:630-673 | ends on every bus and returns all that was marked; gives up exactly after three searches in vain; on a faithful one everybody is processed, or three searches in a row lost an answer |
| Commissioning.Commissioning.SearchPass | wb/mqtt_dali/commissioning.py:627-673 | ends on every bus, stuck exactly after three searches in vain; on a faithful one all is processed, and addressed if nobody is left to draw; or every unique address is kept and three searches in a row lost an answer |
| Commissioning.Commissioning.SearchPasses | wb/mqtt_dali/commissioning.py:624-692 | at most three passes; all that was marked has been sent RANDOMISE unless three passes were made; gear that shares or lacks a random address and draws a new one is addressed by the second |
| Commissioning.Commissioning.RandomiseConflicts | wb/mqtt_dali/commissioning.py:690-692 | the marked gear and no other draws a random address, no short address changes, and nothing marked is left |
| Commissioning.Commissioning.ReadKnown | wb/mqtt_dali/commissioning.py:510-566 | what the poll knows at its end is what the bus holds, everything that can be read included; on a tidy bus it is distinct and nothing was changed to get it; on an addressable one it is distinct, shared random addresses are confirmed, and the bus has become tidy |
| Commissioning.ReadingsHold | wb/mqtt_dali/commissioning.py:568-568 | the dictionary of readings agrees with the bus |
| Commissioning.Commissioning.Poll | wb/mqtt_dali/commissioning.py:507-580 | who is present, exactly 0..63 without them as free, a poll dictionary that agrees with the bus wherever gear agrees with itself, and nobody at a free address |
| Commissioning.Commissioning.Prepare | wb/mqtt_dali/commissioning.py:507-580 | the poll, after which all gear participates: from a tidy or an addressable bus the invariants of the run hold with nothing processed |
| Commissioning.InitialiseAll | wb/mqtt_dali/commissioning.py:570-571 | afterwards all gear participates, at the addresses it had |
| Commissioning.Commissioning.Run | wb/mqtt_dali/commissioning.py:582-692 | after the poll: addressed, or interrupted as above |
| Commissioning.Commissioning.RunToEnd | wb/mqtt_dali/commissioning.py:582-694 | TERMINATE at the end changes none of this, and leaves no gear that obeys in its initialisation mode |
| Commissioning.Commissioning.PrepareAndRun | wb/mqtt_dali/commissioning.py:497-694 | a run from any addressable bus: addressed with distinct random addresses recorded, or interrupted as above |
| Commissioning.Commissioning.SmartExtend | wb/mqtt_dali/commissioning.py:497-729 | a whole run: on any bus it ends, every address programmed is the one to be picked and was in 0..63, silent at the poll and programmed once; if answers to queries are clear nobody held it and it was recorded for nobody; what was marked for RANDOMISE has been sent it unless three passes were made; gear that obeys is left out of its initialisation mode; on an addressable bus (gear that shares or lacks random addresses included, if the poll and the configuration can tell it apart) the record is the bus, both kinds of addresses are set and distinct, those that one device had alone are kept, and the result is a partition exactly when the stored random addresses are distinct; or the search got stuck, exactly after three searches in vain, each of which lost an answer |
| Commissioning.Commissioning.FoundItems | wb/mqtt_dali/commissioning.py:250-250 | the record as a list, one entry for each short address |
| Commissioning.RecordedOnce | wb/mqtt_dali/commissioning.py:698-702 | once the bus is addressed the record holds each random address once, so the classification is a partition |
| Classification.ByRandomExact | wb/mqtt_dali/commissioning.py:698-699 | with distinct random addresses the reverse dictionary loses nothing |
| Classification.Classify | wb/mqtt_dali/commissioning.py:696-725 | the four lists hold exactly what the two dictionaries and their reverses say, missing and new sorted by random address |
| Classification.ClassificationIsPartition | wb/mqtt_dali/commissioning.py:696-725 | each stored device is unchanged, changed or missing and each found one unchanged, changed or new, exactly once |
| Classification.PartitionExactlyWhen | wb/mqtt_dali/commissioning.py:698-725 | whatever is repeated on either side: it is a partition if and only if a device on one side is the last there with its random address, and one on both sides is the last on both or on neither |
| Classification.PartitionOfDistinct | wb/mqtt_dali/commissioning.py:698-725 | for distinct found random addresses: if and only if the stored ones are distinct |
| Classification.SharedRandomBreaksPartition | wb/mqtt_dali/commissioning.py:706-715 | an input on which it is not: a device reported both as unchanged and as moved |
| Classification.Rebuild | wb/mqtt_dali/application_controller.py:1117-1143 | the rebuilt list is the unchanged devices and those created, sorted by short address; the withdrawn ones are those at old or missing addresses |
| Classification.RebuiltIsFound | wb/mqtt_dali/application_controller.py:1112-1143 | the rebuilt list has exactly the found addresses, and what is unpublished is exactly what is not unchanged |
| CommissioningRuns.Recommission | wb/mqtt_dali/application_controller.py:997-998 | run and rebuilding together: on an addressable bus the new device list is the bus, sorted, and what is unpublished is exactly what is no longer on the bus as it was |
| CommissioningRuns.RebuiltIsBus | wb/mqtt_dali/application_controller.py:1112-1143 | the same for any addressed bus and the classification of its record |
| CommissioningRuns.DuplicateIsSeparated | wb/mqtt_dali/commissioning.py:362-392 | a whole run on a stored device and a duplicate of it without a short address: the device keeps both addresses, the duplicate draws a random address of its own and is given a short address of its own, and both are recorded |
| CommissioningRuns.PairIsSeparable | wb/mqtt_dali/commissioning.py:482-496 | such a pair meets what the run theorem assumes |
| CommissioningRuns.PairIsAddressed | wb/mqtt_dali/commissioning.py:348-480 | and what it then says of the pair |
| AddressWithRandomise.FreshReport | wb/mqtt_dali/address_with_randomise.py:170-175 | a reported address leaves the free list and is never handed out |
| AddressWithRandomise.FreshHandOut | wb/mqtt_dali/address_with_randomise.py:182-183 | an address handed out was silent at the scan, not reported before and not handed out before |
| AddressWithRandomise.AddressingPass.ReadShortAddress | wb/mqtt_dali/address_with_randomise.py:194-201 | the selected gear's valid short address, or none |
| AddressWithRandomise.AddressingPass.AddressFoundGear | wb/mqtt_dali/address_with_randomise.py:161-191 | the address reported, taken off the free list, or the lowest free one, programmed and confirmed; on clear queries the reported one always wins |
| AddressWithRandomise.AddressingPass.HandleFound | wb/mqtt_dali/address_with_randomise.py:146-155 | one entry is appended for the gear found, at the short address that gear now has, or with search_only nothing is programmed; WITHDRAW keeps the pass |
| AddressWithRandomise.AddressingPass.SearchAll | wb/mqtt_dali/address_with_randomise.py:126-155 | ends on every bus; the gear listed is every random address, once, ascending, at the short address it holds, unless the pass aborts |
| AddressWithRandomise.AddressingPass.AddressBus | wb/mqtt_dali/address_with_randomise.py:111-158 | with the safety of every programmed address on any bus; all gear that obeys has drawn a new random address and is left out of its initialisation mode; aborts for want of progress exactly after three searches in vain, each of which lost an answer; if draws differ and the scan was complete, the list has one entry for each device, with distinct short addresses exactly if no two held one before, and at most 64 devices never run it out of addresses |
| AddressWithRandomise.RandomiseAll | wb/mqtt_dali/address_with_randomise.py:121-124 | all gear that obeys has drawn and takes part in the search |
| AddressWithRandomise.AddressingPass.AddressLowest | wb/mqtt_dali/address_with_randomise.py:161-191 | gear alone at its random address is addressed for certain while an address is free |
| AddressWithRandomise.AddressingPass.TakeReported | wb/mqtt_dali/address_with_randomise.py:170-175 | a reported address leaves the free list |
| AddressWithRandomise.AddressingPass.HandOut | wb/mqtt_dali/address_with_randomise.py:177-191 | the lowest free address leaves the list and the selected gear has it |
| AddressWithRandomise.FreeDoesNotRunOut | wb/mqtt_dali/address_with_randomise.py:177-181 | pigeonhole: while a device of at most 64 has no valid address, one is free |
| AddressWithRandomise.ListIsBus | wb/mqtt_dali/address_with_randomise.py:146-158 | what is listed when all are addressed is the bus, one entry for each device |
| BusTraffic.BusTrafficCallbacks.NotifyCommand | wb/mqtt_dali/bus_traffic.py:55-88 | one arrival, against the specification the laws below are about |
| BusTraffic.BusTrafficCallbacks.DrainContiguous | wb/mqtt_dali/bus_traffic.py:90-104 | delivers while the head follows the cursor, dropping what is behind it |
| BusTraffic.BusTrafficCallbacks.Flush | wb/mqtt_dali/bus_traffic.py:76-83 | delivers all that is ahead of the cursor, in order, drops the rest and empties the buffer |
| BusTraffic.RunConserves | wb/mqtt_dali/bus_traffic.py:55-104 | for all arrival orders, repeated ids included, every arrival is delivered, buffered or dropped, as often as it arrived |
| BusTraffic.RunKeeps | wb/mqtt_dali/bus_traffic.py:55-104 | for all arrival orders of distinct ids, delivered ids are strictly ascending, all that is dropped was late, nothing deliverable waits |
| BusTraffic.LateIsNeverDelivered | wb/mqtt_dali/bus_traffic.py:95-99 | an item is delivered or waits past a gap exactly when the cursor had not passed it on arrival |
| BusTraffic.BufferIsBounded | wb/mqtt_dali/bus_traffic.py:75-88 | at most queue size - 1 items wait ahead of the cursor |
| BusTraffic.BufferSorts | wb/mqtt_dali/bus_traffic.py:55-104 | ids 0..n-1 arriving in any order within the window are delivered sorted, with an empty buffer and nothing dropped |
| BusTraffic.FlushExact | wb/mqtt_dali/bus_traffic.py:75-86 | a flush keeps the output strictly ascending if and only if the ids it flushes are distinct |
| BusTraffic.RunAscendsExactlyWhen | wb/mqtt_dali/bus_traffic.py:55-104 | over every arrival order, repeated ids included: the output is strictly ascending if and only if no flush finds an id twice among what it delivers |
| BusTraffic.DuplicateIsRepublished | wb/mqtt_dali/bus_traffic.py:76-86 | an input on which it does not, against the comment: a repeated id buffered past a gap is published twice |
| ColourCapture.WordIsSum | wb/mqtt_dali/dtr_snapshot.py:38-41 | the word is DTR1 * 256 + DTR0 |
| ColourCapture.DtrSnapshot.Record | wb/mqtt_dali/dtr_snapshot.py:21-36 | a DTR write changes its own register and reports it; anything else changes nothing |
| ColourCapture.ColourSequenceTracker.NoteDtr | wb/mqtt_dali/colour_sequence_tracker.py:90-97 | the first DTR write after an ACTIVATE drops all pending captures |
| ColourCapture.ColourSequenceTracker.Record | wb/mqtt_dali/colour_sequence_tracker.py:99-111 | a capture gains what the registers hold, or is no longer predictable |
| ColourCapture.ColourSequenceTracker.Take | wb/mqtt_dali/colour_sequence_tracker.py:113-114 | hands over and forgets the capture of the device |
| ColourCapture.ColourSequenceTracker.EndActivate | wb/mqtt_dali/colour_sequence_tracker.py:116-118 | no register counts as written |
| ColourCapture.EventSyncCoordinator.ApplyOne | wb/mqtt_dali/event_sync_coordinator.py:134-152 | one command, against the step function the laws below are about |
| ColourCapture.EventSyncCoordinator.ApplyActivate | wb/mqtt_dali/event_sync_coordinator.py:186-202 | takes the captures of the devices it gets to, the one it fails at included, reports the predictable ones, and always ends the transaction |
| ColourCapture.ReportsAreSound | wb/mqtt_dali/event_sync_coordinator.py:134-202 | over every trace, each component reported is what the registers held when that component of that device was last set, from registers written since the ACTIVATE before |
| ColourCapture.StoredIsMeant | wb/mqtt_dali/colour_sequence_tracker.py:40-71 | the capture of loaded registers is what the builder was given, 16-bit values included |
| ColourCapture.BuildRuns | wb/mqtt_dali/colour_sequence_tracker.py:90-111 | one builder sequence, from any state, adds exactly its components to the capture |
| ColourCapture.BuildersAreInverted | wb/mqtt_dali/dali_type8_tc.py:85-90 | after any history that ends in ACTIVATE, any builder sequences followed by ACTIVATE report exactly the values written |
| ColourCapture.BuildersAreInvertedExactlyWhen | wb/mqtt_dali/colour_sequence_tracker.py:90-97 | from any state: if and only if no register was waiting, or what is pending is predictable and touches no other component |
| ColourCapture.AbandonedTransactionBleeds | wb/mqtt_dali/colour_sequence_tracker.py:90-97 | a trace on which a transaction without its ACTIVATE is reported with the next one |
| RetainedMirror.MQTTDispatcher.ConnectionRestored | wb/mqtt_dali/mqtt_dispatcher.py:48-53 | connected again, in a new session, unless a subscription is refused |
| RetainedMirror.MQTTDispatcher.ConnectionLost | wb/mqtt_dali/mqtt_dispatcher.py:55-58 | disconnected; the mirror is kept |
| RetainedMirror.MQTTDispatcher.PublishRetained | wb/mqtt_dali/mqtt_dispatcher.py:69-80 | always mirrored, sent if connected, never refused |
| RetainedMirror.MQTTDispatcher.PublishLive | wb/mqtt_dali/mqtt_dispatcher.py:81-83 | goes out or fails, with the error by the state of the link |
| RetainedMirror.MQTTDispatcher.MirrorRetained | wb/mqtt_dali/mqtt_dispatcher.py:176-181 | the mirror as a dictionary in which a topic that comes to life goes to the end |
| RetainedMirror.MQTTDispatcher.StartReplay | wb/mqtt_dali/mqtt_dispatcher.py:60-63 | the topics to replay are those of the mirror at that moment |
| RetainedMirror.ReplayBegins | wb/mqtt_dali/mqtt_dispatcher.py:60-67 | from there every topic is still to be replayed |
| RetainedMirror.MQTTDispatcher.ReplayOne | wb/mqtt_dali/mqtt_dispatcher.py:60-67 | one turn of the replay: stops if disconnected, else sends the topic's present payload |
| RetainedMirror.FindMirrored | wb/mqtt_dali/mqtt_dispatcher.py:176-181 | a publish changes the entry of its own topic and no other |
| RetainedMirror.MirrorHoldsLast | wb/mqtt_dali/mqtt_dispatcher.py:176-181 | over every history the mirror holds the last message of every topic, clears included |
| RetainedMirror.ConvergingKept | wb/mqtt_dali/mqtt_dispatcher.py:60-80 | while the session is up, each topic is still to be replayed or will be right at the broker |
| RetainedMirror.MirrorConverges | wb/mqtt_dali/mqtt_dispatcher.py:60-80 | a session up without publish failures through its replay brings the broker to what the mirror holds |
| RetainedMirror.MirrorOfRun | wb/mqtt_dali/mqtt_dispatcher.py:69-80 | the mirror of a run is that of its publishes, whatever the link and the replays did |
| RetainedMirror.BrokerHoldsLast | wb/mqtt_dali/mqtt_dispatcher.py:48-83 | whatever went before, such a session brings the broker to the last message published for every retained topic |
| RetainedMirror.ReplayOrder | wb/mqtt_dali/mqtt_dispatcher.py:176-181 | live topics stand in the mirror in the order in which they last appeared |
| RetainedMirror.ReplaySendsInOrder | wb/mqtt_dali/mqtt_dispatcher.py:60-67 | in every run a replay sends each topic once at most, live ones in the order of their last appearance, and all of them if it ends |
| RetainedMirror.ReplayEndsWithSession | wb/mqtt_dali/main.py:199-208 | a replay does not outlive its session: after the link is lost nothing is sent for it until another begins |
| RetainedMirror.NothingSentWhileDown | wb/mqtt_dali/mqtt_dispatcher.py:69-76 | while the link is down nothing is on its way to the broker |
| RetainedMirror.ReplaySendsLast | wb/mqtt_dali/mqtt_dispatcher.py:61-67 | the k-th entry it sends is the last message published for its topic before the very event that sends it |
| MemoryRead.TakeClean | wb/mqtt_dali/common_dali_device.py:393-408 | the answers up to the first garbled one, and where it was |
| MemoryRead.Gear.ReadBatch | wb/mqtt_dali/common_dali_device.py:391-391 | a batch returns consecutive locations because DTR0 moves on with each |
| MemoryRead.ReadRest | wb/mqtt_dali/common_dali_device.py:385-408 | an attempt yields the memory from the first unread location to the first garbled answer |
| MemoryRead.ReadLocations | wb/mqtt_dali/common_dali_device.py:384-419 | resuming keeps what was read; success if and only if the attempts get through |
| MemoryRead.ReadMemoryBank | wb/mqtt_dali/common_dali_device.py:376-419 | the memory from the start to the last location with no gap, shift or repetition, or an error naming a location after three attempts |
| MemoryRead.CleanRunIsFirst | wb/mqtt_dali/common_dali_device.py:393-408 | an attempt stops at the first garbled answer and at no other |
| MemoryRead.OneCleanAttempt | wb/mqtt_dali/common_dali_device.py:384-412 | one attempt without a garbled answer is enough |
| TaskCoalescing.ApplicationController.HandleOnTopic | wb/mqtt_dali/application_controller.py:1206-1218 | a payload replaces a pending one, else queues one task |
| TaskCoalescing.ApplicationController.RemoveQueuedCommissioningTask | wb/mqtt_dali/application_controller.py:652-672 | takes out the first commissioning task, reporting whether there was one |
| TaskCoalescing.ApplicationController.HandleItem | wb/mqtt_dali/application_controller.py:1440-1461 | refuses in quiescent mode, else executes up to the next task of another kind |
| TaskCoalescing.NothingIsLost | wb/mqtt_dali/application_controller.py:1206-1218 | over every interleaving a control is dirty exactly while one task for it is queued or in hand, every payload is executed, superseded, refused or pending, and the last one for a control is not superseded |
| TaskCoalescing.IdleMeansDone | wb/mqtt_dali/application_controller.py:1425-1461 | with nothing queued or in hand all that arrived has been dealt with |
| TaskCoalescing.ExecutedHasPayload | wb/mqtt_dali/application_controller.py:1455-1457 | a task never finds its control without a payload |
| TaskCoalescing.RefusedInQuiescentMode | wb/mqtt_dali/application_controller.py:1440-1461 | over every run: a write is refused only, and always, when its turn comes in quiescent mode, and executed only, and always, when it comes outside it |
| TaskCoalescing.IdleHasExecutedLast | wb/mqtt_dali/application_controller.py:1425-1461 | a run without quiescent mode that ends idle has refused nothing and executed the last payload of every control |
| TaskCoalescing.BatchInOrder | wb/mqtt_dali/application_controller.py:1447-1461 | a turn executes exactly the execute tasks at the head of what is pending, in order |
| TaskCoalescing.TurnsEndIdle | wb/mqtt_dali/application_controller.py:1425-1461 | with nothing new arriving, as many turns as there are tasks end idle |
| TaskCoalescing.CancelKeepsOrder | wb/mqtt_dali/application_controller.py:652-672 | removing a queued commissioning keeps all other tasks in order |
| PollBudget.TurnWithinBudget | wb/mqtt_dali/common_dali_device.py:1008-1019 | a device's turn keeps the budget, except for an energy chunk that is all of a full budget's batches |
| PollBudget.FullBudgetProgresses | wb/mqtt_dali/common_dali_device.py:1008-1035 | with the whole budget a round that is not empty loses a pollable or a part to read |
| PollBudget.TurnConserves | wb/mqtt_dali/common_dali_device.py:1008-1019 | the single-query controls queried and those left are those of the round, in order |
| PollBudget.RoundConserves | wb/mqtt_dali/common_dali_device.py:1003-1019 | over all ticks and budgets none of a round's single-query controls is skipped or queried twice |
| PollBudget.RoundQueriesOnce | wb/mqtt_dali/common_dali_device.py:1003-1019 | after as many full budgets as there are pollables and parts to read the round is over and each was queried exactly once |
| PollBudget.CycleQueriesOnce | wb/mqtt_dali/application_controller.py:296-322 | a cycle over all devices: the same for each device's snapshot, and it is over after as many ticks as there is work |
| PollBudget.SnapshotIsDue | wb/mqtt_dali/common_dali_device.py:1107-1110 | a round is the pollables that are due and no others, as often and in the same order |
| PollBudget.CycleQueriesDue | wb/mqtt_dali/application_controller.py:296-322 | over a whole cycle: of each device exactly the controls are queried that were due at the tick its round began, each once and in order |
| PollBudget.TurnIsOfRound | wb/mqtt_dali/common_dali_device.py:991-1035 | all that a turn sends is of the round under way, or of a new one of what is due; nothing only if nothing is left or due, or the budget does not allow it |
| PollBudget.Device.PollControls | wb/mqtt_dali/common_dali_device.py:991-1035 | one device, against the specification, within its budget; all that is sent belongs to the round under way or is due, and what is due and not sent is left in the round |
| PollBudget.Device.TakeAnswers | wb/mqtt_dali/dali_type8_parameters.py:882-901 | the reader at the head has read the part it sent, or has none left |
| PollBudget.Device.ResetPollingState | wb/mqtt_dali/common_dali_device.py:1037-1040 | the round and the progress of its readers are dropped: the next round is a new snapshot, in which every reader that is due begins anew |
| PollBudget.PollScheduler.Poll | wb/mqtt_dali/application_controller.py:296-322 | a tick is that of the specification, device by device, and keeps the budget |
| PollBudget.PollScheduler.PollDevice | wb/mqtt_dali/application_controller.py:305-319 | one device's turn in it |
| PollBudget.TickWithinBudget | wb/mqtt_dali/application_controller.py:296-322 | whatever is due, a tick sends three commands at most, or one energy chunk and nothing else |
| PollReaders.ColourPlans | wb/mqtt_dali/dali_type8_parameters.py:813-846 | the colour reader plans as a reader with its parts does: an opening one and one for each component |
| PollReaders.ColourReads | wb/mqtt_dali/dali_type8_parameters.py:850-916 | a part answered leaves the others, one that fails leaves none |
| PollReaders.EnergyPlans | wb/mqtt_dali/dali_type51_parameters.py:382-413 | the energy reader plans as a reader with its chunks does: one for an unknown scale and three of data |
| PollReaders.EnergyReads | wb/mqtt_dali/dali_type51_parameters.py:415-488 | a chunk answered leaves the others, one that fails leaves none |
| EnergyRead.Type51Parameters.NextPollStep | wb/mqtt_dali/dali_type51_parameters.py:382-413 | the next chunk, four commands, if the budget is untouched and a read is due |
| EnergyRead.Type51Parameters.DoScaleChunk | wb/mqtt_dali/dali_type51_parameters.py:415-436 | the scale is known from then on |
| EnergyRead.Type51Parameters.DoChunk | wb/mqtt_dali/dali_type51_parameters.py:438-488 | two bytes more; the last two report the counter or that it is invalid |
| EnergyRead.Type51Parameters.FailCycle | wb/mqtt_dali/dali_type51_parameters.py:470-475 | a failure ends the cycle with one event |
| EnergyRead.Type51Parameters.CancelPendingPoll | wb/mqtt_dali/dali_type51_parameters.py:370-371 | drops the cycle, not the chunk in flight |
| EnergyRead.CyclesAreAtomic | wb/mqtt_dali/dali_type51_parameters.py:382-488 | over every run no cycle emits more than one event, and exactly one if it is over and was not cancelled |
| EnergyRead.ReportsTheCounter | wb/mqtt_dali/dali_type51_parameters.py:415-488 | while the counter stands still, every energy reported is the gear's scale and six bytes in order, whatever failed or was cancelled |
| EnergyRead.ReportsExactlyWhenValid | wb/mqtt_dali/dali_type51_parameters.py:477-488 | the last chunk reports that counter if and only if the scale is known and the counter valid, and a failure otherwise; nothing but it and a failed chunk reports anything |
| PollBudget.AppendWithinBudget | wb/mqtt_dali/dali_type51_parameters.py:391-394 | an energy chunk overshoots only when nothing else was sent in the tick |
| ColourReadCycle.Type8Parameters.NextPollStep | wb/mqtt_dali/dali_type8_parameters.py:813-846 | the next part, if one is due and fits, and what the scheduler is told |
| ColourReadCycle.Type8Parameters.DoFirstSubbatch | wb/mqtt_dali/dali_type8_parameters.py:850-880 | the opening part fails the cycle unless the gear reports the type it is driven as |
| ColourReadCycle.OpeningFailsExactlyWhen | wb/mqtt_dali/dali_type8_parameters.py:850-880 | for the reported code of each colour type: the cycle goes on with every active component if it is the type driven as, and fails otherwise |
| ColourReadCycle.AnswerIsValue | wb/mqtt_dali/dali_type8_parameters.py:882-916 | the value of a component is the high byte for RGBWAF and both bytes otherwise |
| ColourReadCycle.Type8Parameters.DoComponentSubbatch | wb/mqtt_dali/dali_type8_parameters.py:882-916 | one component; the last one publishes the whole picture |
| ColourReadCycle.Type8Parameters.EndInError | wb/mqtt_dali/dali_type8_parameters.py:944-953 | a failure ends the cycle with one event for the whole active type |
| ColourReadCycle.Type8Parameters.ApplyObservedColour | wb/mqtt_dali/dali_type8_parameters.py:745-768 | the valid active components of an observed command are overlaid, clamped and reported |
| ColourReadCycle.ObservedIsOverlaid | wb/mqtt_dali/dali_type8_parameters.py:745-768 | afterwards each component has the value observed if that is valid and the component active, else its own, and a known temperature is clamped: the limit it is beyond, or the warmest if the limits are not in order |
| ColourReadCycle.ObservedIsReported | wb/mqtt_dali/dali_type8_parameters.py:757-768 | the event reports exactly the active components that have a value, with it; none if there are none |
| ColourReadCycle.Type8Parameters.ClampTc | wb/mqtt_dali/dali_type8_parameters.py:965-976 | clamps the temperature, with the interface's limits for gear without limit registers |
| ColourReadCycle.Type8Parameters.CancelPendingPoll | wb/mqtt_dali/dali_type8_parameters.py:742-743 | drops the cycle under way; a part in flight goes on by itself |
| ColourReadCycle.Type8Parameters.UpdateLimits | wb/mqtt_dali/dali_type8_parameters.py:701-701 | the limits that clamping uses |
| ColourReadCycle.CyclesAreAtomic | wb/mqtt_dali/dali_type8_parameters.py:813-953 | over every run, cancellations while a part is in flight included: no cycle emits more than one event, one that is over and was not cancelled emits exactly one, one cancelled with nothing in flight emits none, and every event covers the whole active type |
| ColourReadCycle.OrphanEmitsExactlyWhen | wb/mqtt_dali/dali_type8_parameters.py:742-743 | a cycle cancelled with a part in flight still emits if and only if that part fails or brings the last component |
| ColourReadCycle.CancelledCycleReports | wb/mqtt_dali/dali_type8_parameters.py:911-916 | a run on which a cancelled cycle reports and changes the picture |
| ColourReadCycle.PictureChangesWhole | wb/mqtt_dali/dali_type8_parameters.py:911-916 | the stored picture changes only with an observed command or with a read event that carries it |
| ColourReadCycle.ReadIsFresh | wb/mqtt_dali/dali_type8_parameters.py:902-916 | a read event carries the answers of its own cycle for every active component |
| ColourReadCycle.ClampExact | wb/mqtt_dali/dali_type8_parameters.py:965-976 | an observed temperature ends inside the limits if and only if these are in order, and one inside is left alone |
| FetchScheduler.SettingsFetchScheduler.FetchStep | wb/mqtt_dali/fetch_scheduler.py:65-97 | at most one fetch, against the step function; with nothing to fetch the cursor starts over |
| FetchScheduler.SettingsFetchScheduler.EndFetch | wb/mqtt_dali/fetch_scheduler.py:92-97 | what follows the await, whatever the entries are by then: the entry at that position leaves, or there is none and the step fails |
| FetchScheduler.SettingsFetchScheduler.AddDevice | wb/mqtt_dali/fetch_scheduler.py:51-56 | the parameters of the device, once, at the end |
| FetchScheduler.SettingsFetchScheduler.RemoveDevice | wb/mqtt_dali/fetch_scheduler.py:58-60 | no parameter of the device, the others in order |
| FetchScheduler.StepMovesCloser | wb/mqtt_dali/fetch_scheduler.py:76-96 | an entry whose turn has not come is one step closer after each step, whatever happens to others |
| FetchScheduler.EveryEntryIsReached | wb/mqtt_dali/fetch_scheduler.py:65-97 | without membership changes every entry is fetched within one cycle length, whichever fetches fail |
| FetchScheduler.StepsAreChunks | wb/mqtt_dali/fetch_scheduler.py:82-96 | the fetch is over after exactly as many steps as there are chunks, less those that failing fetches leave unread |
| FetchScheduler.NoFailureReadsAll | wb/mqtt_dali/fetch_scheduler.py:92-96 | which are none if none fails |
| FetchScheduler.StepKeepsOrder | wb/mqtt_dali/fetch_scheduler.py:92-96 | a step keeps the order of the entries, deletion included |
| FetchScheduler.RunKeepsOrder | wb/mqtt_dali/fetch_scheduler.py:65-97 | so does a whole run, whichever fetches fail |
| FetchScheduler.WithoutKeepsOrder | wb/mqtt_dali/fetch_scheduler.py:58-60 | removing a device leaves exactly the other entries, in their order |
| FetchScheduler.RemovalKeepsTurnExactlyWhen | wb/mqtt_dali/fetch_scheduler.py:58-60 | the entry whose turn it was keeps it if and only if the old cursor, in the shorter list, comes to its place less the entries removed before it |
| FetchScheduler.RemovalDelaysTheNext | wb/mqtt_dali/fetch_scheduler.py:58-60 | an input on which the entry whose turn it was loses it |
| FetchScheduler.UndisturbedTakesOutFetched | wb/mqtt_dali/fetch_scheduler.py:76-94 | with nothing removed while the fetch is awaited, exactly the entry that was fetched leaves |
| FetchScheduler.TakesOutFetchedExactlyWhen | wb/mqtt_dali/fetch_scheduler.py:58-94 | if a device is removed meanwhile: if and only if the entry belongs to another device and nothing before it was removed |
| FetchScheduler.RemovalTakesOutAnother | wb/mqtt_dali/fetch_scheduler.py:58-94 | an input on which another entry leaves, and one on which the step fails |
| FetchScheduler.ScenesParam.NoteAbsent | wb/mqtt_dali/settings.py:45-61 | silence means that the setting is missing exactly if the gear never answered |
| FetchScheduler.ScenesParam.Fetch | wb/mqtt_dali/dali_common_parameters.py:377-389 | one chunk and where the cursor is after it; silence completes the fetch of gear that never answered and is an error otherwise |
| FetchScheduler.ScenesParam.Read | wb/mqtt_dali/dali_common_parameters.py:364-375 | all scenes as the gear holds them, the fetch complete; nothing for gear that never answered |
| FetchScheduler.ScenesParam.ReadScenes | wb/mqtt_dali/dali_common_parameters.py:505-518 | stores all scenes asked for or none |
| FetchScheduler.ScenesParam.SceneLevel | wb/mqtt_dali/dali_common_parameters.py:496-501 | a level is reported exactly for a scene below the cursor that is not MASK, and is the gear's |

## Left out

Of what is modelled:

- Commissioning.Commissioning.SearchPasses: completeness is for runs in which, after the poll, nobody but gear without a short address is in conflict; each RANDOMISE sends TERMINATE first, so after several conflict classes only the last one still takes part in the search, and completeness does not hold there.
- Commissioning.Commissioning.SmartExtend: gear that shares a set random address is outside the run theorem if it cannot be told apart: none of it has a short address, several share one, or the device whose random address is duplicated is not in the configuration. If none of it has a short address it gives one clean answer and is given one address for all. Which of several devices with one short address keeps it depends on the order of the stored devices, so the rule in the README of the service is not claimed.
- Commissioning.Commissioning.QueryKnown: a batch is repeated as a whole when the gateway reports a transmission error; such errors are not part of this model.
- Polling.PresentShorts: the 64 queries are sent in order and not concurrently; the QUERY DEVICE STATUS form for control devices differs only in what counts as an answer.
- Enumeration.QuerySelected: a DALI-2 answer that decodes to neither an address nor MASK is not modelled; an answer is silence, a framing error or a value.
- BusTraffic.BusTrafficCallbacks.NotifyCommand: an item is its sequence id and an opaque frame; frames of the bus monitor, which are never buffered, and the set of callbacks are left out.
- ColourCapture.EventSyncCoordinator.ApplyOne: level, fade and scene commands, and the times at which confirming polls are asked for, are left out.
- RetainedMirror.MQTTDispatcher.ConnectionRestored: which subscriptions there are, and the cache of received retained messages, are left out.
- MemoryRead.ReadMemoryBank: starts from the last address as read; decoding the values of a bank is left out.
- TaskCoalescing.ApplicationController.HandleItem: what executing a control does, its futures and errors, and the shutdown of the loop; a step is what happens between two points at which the event loop can switch.
- PollBudget.PollScheduler.Poll: devices added or removed during a cycle, and a reader that is made due again while its failed read is still at the head of the round, are left out.
- PollBudget.CycleQueriesOnce: a round that is reset is dropped, and what it had not queried waits for the next snapshot; the statement is for cycles without a reset.
- ColourReadCycle.Type8Parameters.NextPollStep: the retries of a part are one answer; the polling loop plans no part while it awaits another.
- EnergyRead.ReportsTheCounter: for a counter that stands still; nothing in the code latches a counter that moves between two chunks.
- FetchScheduler.ScenesParam.Fetch: the gear's scenes do not change while they are fetched, and writing scenes is left out.

Of the service:

- `reconcile_entries` and the rewriting of the configuration file: list editing without a protocol.
- Quiescent mode of control devices, which a pass starts and stops along with its own frames.
- Sleeps, jitter, real time, progress reports and log lines.
- The gateway driver, its retries and its queue: replaced by the bus above.
- The decoding of a raw energy counter, which is a predicate of the model, and the settings page of DT51 gear.
- Group membership writes of DALI-2 devices: masks over a finite range.
- Device initialisation, overheat limits, dimming curves, MQTT and RPC plumbing, schemas and translations.
