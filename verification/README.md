# Verified model of the Modbus scanner, recorder and replay server

This project models, in Dafny, the parts of modbusctl that decide which registers are read,
what is recorded of the answers, and how a recording is served again. It proves what these
parts promise for every device, every run and every input. `dafny verify dfyconfig.toml`
checks all of it.

## What is modelled

- **Scan strategies** (`Boundary`, `Smart` with `SmartQueue`, `Deep`, `Safe`, `Linear`,
  `Stepped`, `SunSpec`; `Edges` holds what two of them share). Each is a class with the
  fields of the Go struct and its methods `Next` and `OnResult`. The invariant ties the
  fields to the list of reads performed so far. A predicate `Report` says of each algorithm
  what a finished run guarantees; lemmas about `Report` draw the consequences.
- **Scan loop** (`Strategies`, `Runs`, `Scan`, `Losses`): any of the seven strategies, driven
  over a link to a device. `Runs` says what a scan is: its steps, how it may be cut short, and
  its sums; `Scan` proves that the loop makes one; `Losses` tells when its file is complete.
- **Link and recorder** (`Calls`, `Exchange`, `Capfile`): what a call with retries and re-dials
  is, the loop that makes it, and attempts as transactions of the recorder under any
  interleaving.
- **Replay** (`History`, `Replay`, `Pdu`, `Serve`, `Clock`): change lists, the search that
  answers from them, response PDUs, the handler's choices, and the replay clock.
- **Scan to replay** (`ScanReplay`): a capture recorded by a scan answers like the device.
- **Hosts** (`Hosts`): carry arithmetic on addresses and the enumeration of subnets.

## Two kinds of device

Claims about termination, ranges, costs and conservation hold for any answers at all. Claims
about exactness and completeness assume an interval-readable device: a read succeeds exactly
if every address in it is readable, as for the in-memory device in
`internal/mbtest/device.go:282-297`; nothing is assumed of reads of no register or of more
than 125, which that device refuses. `Calls.World` stands for everything outside the program.
It is indexed by moments and otherwise arbitrary: timers, dials, reads, file writes and
flushes may each fail at any moment. Every use of it takes one moment, so a run accounts for
all moments from its first dial to its end.

## Abstractions

- `U16`, `U32` and `Byte` are subset types, so every store proves that the Go conversion
  cannot panic. Where Go wraps, the model does: `end - start + 1`, `pos + step/2`,
  `base + 2`, `start + i` for split addresses.
- The replay clock is over the reals. Rounding and the NaN and infinity guards are not
  modelled; `into >= span` is kept and never taken.
- Replay takes `split`, the capture library's decoder of FC01-04 samples, as a parameter and
  assumes nothing about it. A sample counts as an exception if its response starts with a
  byte from 0x80 on. The library's read and write functions are constants of `Capfile`; the
  write functions are taken from the MODBUS Application Protocol Specification.
- The heap, the stable sort and the binary search of the Go standard library are written
  out and proved. The heap is a sequence.
- `net.ParseCIDR` yields a subnet or nothing. `IPNet.Contains` is the same prefix, and an
  IPv4-mapped address is in no IPv6 network but one of mapped addresses.
- An error is the set of kinds it is recognised as (`Calls.Fault`); Go's error chains and
  texts are not modelled. Time stamps and durations are left out.
- `Stepped.SteppedStrategy.Next` is a loop where the source calls itself; helper methods cut
  long Go methods into their branches.

## Where the code differs from what is written about it

- Safe over 0-65535: the 16-bit length wraps to 0 and nothing is scanned
  (`Safe.SettlesUnlessWrapped`). Safe probes left of a hit only beyond the start address, not
  beyond 0 as a reader may expect.
- Deep looks for a failed interval at the edge and its outer neighbour; ALGOS.md 4.6 speaks
  of one register on both sides.
- Stepped can expand from start - 1, though ALGOS.md 5 promises expansion strictly inside the
  range (`Stepped.ExpansionsStayInsideIff`). Its printed worst case ignores half steps
  (`Stepped.PrintedWorstCaseIff`). A half step that wraps may give a position below start
  (`Stepped.PositionBelowStartIff`).
- Smart's printed bound wraps for an empty range (`Smart.PrintedIsWorstCaseIff`).
- Linear's gap probe never finds anything new on an interval-readable device
  (`Linear.GapProbesAddNothing`). Guards in linear's searches and smart's visited loop are
  never taken; the model leaves them out and says so where they stood.
- A SunSpec base of 65534 or 65535 wraps (`SunSpec.WalkTilesMemory`). A scan may ask for
  register 65536 (`SunSpec.ReadsExistIff`).
- docs/exitcodes.md has a capture that cannot be written end in exit code 10. A scan gives up
  when that happens during the first performance of a read, but not during the retry: with
  retries it may return no error and an incomplete file (`Losses.NeverLosesIff`). A capture
  may then hold part of an attempt (`Capfile.PartOfAnAttempt`).
- Linear does not search the start of a block that it meets 125 registers behind another one
  (`Linear.LeftUnlessJumped`).
- `exchange` with no retries returns success without a call (`Exchange.DeviceLink.Exchange`).
- Host enumeration of 0.0.0.0/0 ends only if its visitor stops it (`Hosts.NeverStops`): the
  count ends for a limit below 2^32 (`Hosts.AllStopBelow`), but need not for that of
  `EstimateDiscoverHostCount`. An IPv6 network around the IPv4-mapped block stops in front of it
  (`Hosts.HostsAreExactIff`).

## Model

| member | source | states |
|---|---|---|
| `Boundary.ReportIsExact` | internal/modbus/scan_algo.go:981-1163 | on an interval-readable device with a readable seed, a finished run has captured exactly the readable block around the seed, and its certified edges are that block's edges |
| `Boundary.ReadableBlockIsMaximal` | internal/modbus/scan_algo.go:981-1163 | that block contains every readable interval of the range around the seed |
| `Boundary.UnreadableSeedStops` | internal/modbus/scan_algo.go:1105-1163 | an unreadable seed ends the run after its one read |
| `Boundary.SeedIsReadFirst` | internal/modbus/scan_algo.go:981-1004 | the first read is the seed if it has 1 to 125 registers inside the range; otherwise nothing is read |
| `Boundary.SizesDouble` | internal/modbus/scan_algo.go:936-936 | the expansion doubles its reads from 1 to 64 and ends with 125 |
| `Boundary.BoundaryStrategy.Next` | internal/modbus/scan_algo.go:1031-1103 | every read has 1 to 125 registers and lies inside the range; no read is left exactly when the run is done |
| `Boundary.BoundaryStrategy.OnResult` | internal/modbus/scan_algo.go:1105-1163 | keeps the phase invariants for any answer, failures included |
| `Boundary.BoundaryStrategy.WithinWorstCase` | internal/modbus/scan_algo.go:936-1103 | never more than 17 + 7 reads per 125-register window on each side, for any answers |
| `Boundary.BoundaryStrategy.FinishedReports` | internal/modbus/scan_algo.go:981-1163 | when done, every address of the final block was read successfully and both edges are certified, for any answers |
| `Edges.LeftEdgeIsExact` | internal/modbus/scan_algo.go:1105-1135 | a left edge certified by failed reads is a true edge of an interval-readable device |
| `Edges.RightEdgeIsExact` | internal/modbus/scan_algo.go:1136-1163 | the same for a right edge |
| `Smart.RangeIsConserved` | internal/modbus/scan_algo.go:276-325 | for any answers, after every read: each address of the range lies in exactly one open interval, successful read or refused single register |
| `Smart.CostIsConserved` | internal/modbus/scan_algo.go:281-325 | for any answers, after every read: reads made, reads still possible and reads saved by successes add up to 2N - ceil(N/125) |
| `Smart.ReportCost` | internal/modbus/scan_algo.go:281-325 | the exact number of reads of a finished run; equal to the worst case when every read fails |
| `Smart.PrintedIsWorstCaseIff` | internal/modbus/scan_algo.go:1181-1187 | the bound that is printed is this worst case exactly for a non-empty range; for an empty one it wraps to 4294967295 |
| `Smart.ReportIsDepthFirst` | internal/modbus/scan_algo.go:244-325 | the priority order makes the run a depth-first exploration, chunk by chunk |
| `Smart.FailedIsHalved` | internal/modbus/scan_algo.go:309-325 | for any answers: in a finished run a failed interval of n > 1 registers is followed by the read of its first n / 2, and its last n - n / 2 are read later |
| `Smart.ReportIsShort` | internal/modbus/scan_algo.go:276-325 | on an interval-readable device a run takes at most one read for each 125 registers and 14 for each unreadable register |
| `Smart.OneUnreadableCosts` | internal/modbus/scan_algo.go:276-325 | one unreadable register in a range of 125: at most fifteen reads |
| `Smart.LineIsSorted` | internal/modbus/scan_algo.go:248-253 | the open intervals as a stack are in the order of the heap's Less |
| `Smart.ChunksOneAtATime` | internal/modbus/scan_algo.go:244-262 | no further 125-chunk is opened before the current one is settled |
| `Smart.QueueIsShort` | internal/modbus/scan_algo.go:244-325 | the queue never holds more than ceil(N/125) + 7 intervals |
| `Smart.LineIsUnread` | internal/modbus/scan_algo.go:294-307 | an open interval was never read before, so the visited check never skips anything |
| `Smart.IntervalKeyIsInjective` | internal/modbus/scan_algo.go:290-292 | different intervals have different visited keys |
| `Smart.ReportSettlesRange` | internal/modbus/scan_algo.go:276-325 | for any answers, a finished run has captured or refused alone each address of the range |
| `Smart.ReportIsComplete` | internal/modbus/scan_algo.go:276-325 | on an interval-readable device the capture is exactly the readable part of the range |
| `Smart.SmartStrategy.Next` | internal/modbus/scan_algo.go:294-307 | returns the top of the stack, and no task only when the run has settled its range |
| `Smart.SmartStrategy.OnResult` | internal/modbus/scan_algo.go:309-325 | keeps heap, stack and visited set in step for any answer; what it requeues is told by Smart.FailedIsHalved |
| `SmartQueue.Push` | internal/modbus/scan_algo.go:255-255 | keeps the heap and adds one interval |
| `SmartQueue.Pop` | internal/modbus/scan_algo.go:256-262 | keeps the heap and removes an interval no other is less than |
| `Deep.RefinementsAreNearEdges` | internal/modbus/scan_algo.go:411-447 | behind the reads of smart come at most 500, all different, each of 1, 2, 4 or 8 registers within 8 addresses of an edge of a successful read that a failed read holds or touches from outside; fewer than 500 are all of these |
| `Deep.ReportIsComplete` | internal/modbus/scan_algo.go:356-463 | on an interval-readable device the capture is exactly the readable part of the range |
| `Deep.ReportCost` | internal/modbus/scan_algo.go:1188-1195 | at most 500 reads more than smart, for any answers |
| `Deep.NoFailureNoPlan` | internal/modbus/scan_algo.go:411-431 | without a failed interval nothing is refined |
| `Deep.DeepStrategy.HasFailureAdjacent` | internal/modbus/scan_algo.go:393-409 | a failed interval covers the edge or its outer neighbour |
| `Deep.DeepStrategy.Next` | internal/modbus/scan_algo.go:368-391 | both phases stay inside the range; no task only when the plan is used up |
| `Safe.SettlesUnlessWrapped` | internal/modbus/scan_algo.go:125-137 | safe settles its whole range if and only if its 16-bit length does not wrap; for 0-65535 it reads nothing |
| `Safe.ReportIsComplete` | internal/modbus/scan_algo.go:125-240 | on an interval-readable device every readable address of any other range is captured |
| `Safe.NoHitCost` | internal/modbus/scan_algo.go:1178-1180 | without a hit at most eight reads per address, as printed |
| `Safe.CandidateCounts` | internal/modbus/scan_algo.go:125-137 | the ladder of sizes that fit, from large to small, down to 1; empty only for the wrapped length |
| `Safe.LadderIs` | internal/modbus/scan_algo.go:123-137 | the ladder holds 125, 64, 32, 16, 8, 4, 2 and 1 as far as they fit, from large to small |
| `Safe.SafeStrategy.Next` | internal/modbus/scan_algo.go:174-201 | the exact next read: the left probe, or the next size at the scan position; always in range |
| `Safe.SafeStrategy.OnProbeResult` | internal/modbus/scan_algo.go:203-212 | a left-boundary probe never moves the scan position |
| `Safe.SafeStrategy.WithinWorstCase` | internal/modbus/scan_algo.go:161-240 | at most 9N reads, for any answers |
| `Linear.ReportIsExact` | internal/modbus/scan_algo.go:769-928 | on an interval-readable device the capture is a union of disjoint blocks with exact right edges; a block whose first probe came directly after a failed one has an exact left edge, and so has every other block that does not begin just 125 registers behind the one before |
| `Linear.LeftUnlessJumped` | internal/modbus/scan_algo.go:806-840 | the left edge of such a block, from where the probes were made |
| `Linear.BlockIsExact` | internal/modbus/scan_algo.go:790-926 | the same for one block: found after a failed probe is what the reads themselves say |
| `Linear.GapProbesAddNothing` | internal/modbus/scan_algo.go:770-780 | a gap probe asks for an address that was captured or refused alone, so it adds nothing |
| `Linear.LinearStrategy.Next` | internal/modbus/scan_algo.go:769-855 | every read lies inside the range; no task only with a report for every block |
| `Linear.LinearStrategy.OnResult` | internal/modbus/scan_algo.go:857-928 | keeps the block certificates and the cost measure for any answer |
| `Linear.LinearStrategy.WithinWorstCase` | internal/modbus/scan_algo.go:742-928 | at most 17 reads per 125 registers, for any answers |
| `Stepped.StepPositions` | internal/modbus/scan_algo.go:491-536 | the positions are exactly the grid and half-step positions not past the end, ascending, once each |
| `Stepped.ProbesAround` | internal/modbus/scan_algo.go:548-587 | a position away from the ends is probed with one and two registers at the address before it, at it, and behind it |
| `Stepped.FirstHitIs` | internal/modbus/scan_algo.go:654-681 | the hit of a position is where its first successful probe starts |
| `Stepped.ExpansionSizes` | internal/modbus/scan_algo.go:593-652 | the expansion of a hit tries 125, 64, 32, 16, 8 and 4 registers as far as they fit, from large to small |
| `Stepped.ReportCost` | internal/modbus/scan_algo.go:593-681 | at most twelve reads per position, six without a hit, for any answers |
| `Stepped.ExpansionsStayInsideIff` | internal/modbus/scan_algo.go:593-652 | expansion reads stay inside the range for every device if and only if start is 0 or fewer than three registers are scanned |
| `Stepped.ExpansionBelowStart` | internal/modbus/scan_algo.go:600-652 | a device on which the first expansion read starts at start - 1 |
| `Stepped.MorePositionsIff` | internal/modbus/scan_algo.go:508-529 | there are more positions than grid steps if and only if a half step adds one |
| `Stepped.PrintedWorstCaseIff` | internal/modbus/scan_algo.go:1196-1206 | a silent device gets more reads than the printed worst case if and only if a half step adds a position |
| `Stepped.PrintedWorstCaseFails` | internal/modbus/scan_algo.go:1196-1206 | range 0-10, step 10 with half steps: 15 reads, 12 printed |
| `Stepped.PositionBelowStartIff` | internal/modbus/scan_algo.go:508-529 | a position lies below the start if and only if the half step behind the last grid position wraps to there |
| `Stepped.PositionBelowStart` | internal/modbus/scan_algo.go:508-529 | range 60000-65535, step 20000 with half steps: 4464 is a position |
| `Stepped.SteppedStrategy.Next` | internal/modbus/scan_algo.go:593-652 | every read lies inside [start - 1, end + 1] and 0-65535 |
| `Stepped.SteppedStrategy.WithinWorstCase` | internal/modbus/scan_algo.go:593-681 | the cost bound at every moment of a run |
| `SunSpec.WalkTilesMemory` | internal/modbus/scan_algo_sunspec.go:94-190 | the successful reads of a walk tile memory without gap or overlap; they begin at base + 2 exactly when base <= 65533; at most maxModels models, each header within the span |
| `SunSpec.ReadsExistIff` | internal/modbus/scan_algo_sunspec.go:94-190 | for every device all reads stay below 65536, if and only if 65535 is no base that is probed and no base leads to a header there within maxModels and the span |
| `SunSpec.SpillsAtOnce` | internal/modbus/scan_algo_sunspec.go:94-102 | with 65535 as the only base a silent device is asked for register 65536 |
| `SunSpec.ReadsNothingIff` | internal/modbus/scan_algo_sunspec.go:77-121 | a scan reads nothing exactly with a fixed base and a span of 1 |
| `SunSpec.WalkReadsModels` | internal/modbus/scan_algo_sunspec.go:123-190 | these reads are the headers and bodies of models the device reported, in ascending order |
| `SunSpec.ReadsOfModel` | internal/modbus/scan_algo_sunspec.go:94-122 | each model's header is followed by its body in exactly ceil(length/125) chunks |
| `SunSpec.BodyTasksAre` | internal/modbus/scan_algo_sunspec.go:100-112 | the chunks of a body: 125 registers each and the rest |
| `SunSpec.NoMarkerNoWalk` | internal/modbus/scan_algo_sunspec.go:123-145 | without a marker every base is probed once and nothing else is read |
| `SunSpec.MarkerIff` | internal/modbus/scan_algo_sunspec.go:125-138 | the marker is the text SunS in the first four bytes of a successful read |
| `SunSpec.SunSpecStrategy.OnResult` | internal/modbus/scan_algo_sunspec.go:123-190 | keeps the walk's invariants for any answer |
| `SunSpec.SunSpecStrategy.WithinWorstCase` | internal/modbus/scan_algo_sunspec.go:94-190 | bases, headers and body chunks bound the reads, for any answers |
| `Strategies.Strategy.Next` | internal/modbus/scan_algo.go:90-96 | one contract for the seven strategies: a read in bounds, or the algorithm's report |
| `Strategies.Strategy.OnResult` | internal/modbus/scan_algo.go:90-96 | every strategy accepts any answer to the read it asked for |
| `Strategies.NewScanStrategy` | internal/modbus/scan_algo.go:99-119 | the strategy of the configured algorithm, with nothing read |
| `Scan.ScanAndRecord` | internal/modbus/client.go:554-697 | for any device, clock and file: the scan ends within the worst case; it returns exactly the error of the first dial, of creating the capture, of the step it was cut short in, or of closing the capture; otherwise the report holds and the summary is that of its steps; the file holds what its attempts put there |
| `Scan.Loop` | internal/modbus/client.go:604-672 | the loop terminates for every strategy and every world, with the report, or in a step that was cut short |
| `Scan.Perform` | internal/modbus/client.go:612-632 | a performance, and a second one exactly when Runs.SecondIff says; the scan gives up exactly when the first one could not be written or the wait was interrupted |
| `Scan.ExecuteReadTask` | internal/modbus/client.go:479-498 | one call with one attempt, at consecutive moments, with the error of its uses |
| `Runs.StatsAddUp` | internal/modbus/client.go:644-672 | requests = reads + retries; successes + failures = reads; registers = sum of successful counts; failures by kind |
| `Scan.StepInTurn` | internal/modbus/client.go:604-672 | each step begins at the moment at which the one before ended; at most two attempts for each single read |
| `Runs.SecondIff` | internal/modbus/client.go:619-632 | a read is performed a second time exactly if retries are configured and the first time failed, other than in writing the capture, with a timeout, or a lost connection that is no protocol error, and no exception |
| `Runs.StepTellsAnswer` | internal/modbus/client.go:616-642 | the strategy is handed the data of the answer to the last attempt of the step exactly if the step ends without an error, and no data otherwise |
| `Runs.FailureIsCounted` | internal/modbus/client.go:652-665 | a failed read counts as an exception, a timeout or a lost connection by the first of these that its error is |
| `Scan.AttemptsAreCounted` | internal/modbus/client.go:616-646 | no more attempts reach the device than requests are counted |
| `Scan.ReadsAreInBounds` | internal/modbus/client.go:604-613 | every read performed was in the algorithm's bounds, so no 16-bit conversion fails |
| `Scan.SoundScansConclude` | internal/modbus/client.go:604-672 | if only the device can fail, the scan is not cut short and returns no error |
| `Scan.HonestIsIntervalReadable` | internal/modbus/client.go:604-672 | scanning a device that answers reads of 1 to 125 registers exactly if all are readable gives an interval-readable history |
| `Scan.ScanMissesNothing` | internal/modbus/client.go:604-672 | safe (unless its length wraps), smart and deep capture exactly the readable part of the range |
| `Losses.CompleteIff` | internal/modbus/client.go:613-632 | the file of a scan that was not cut short holds all reads of all kept attempts if and only if everything the second performances brought in could be saved |
| `Losses.CompleteWithoutRetries` | internal/modbus/client.go:613-632 | without retries an error-free scan has recorded everything, whatever else fails |
| `Losses.LossyLoses` | internal/modbus/client.go:613-632 | for any configuration with retries: a world in which the scan returns no error and its file lacks what it read |
| `Losses.NeverLosesIff` | internal/modbus/client.go:613-632 | error-free scans are complete in every world if and only if there are no retries or nothing is read |
| `Losses.AsksNothingIff` | internal/modbus/scan_algo.go:90-119 | the configurations with which a scan reads nothing |
| `ScanReplay.ScannedIsReplayed` | internal/modbus/client.go:554-672 | a replay of the capture answers an address with the register of the scanned device exactly if the scan captured it |
| `ScanReplay.ReplayIsTheDevice` | internal/replay/replay.go:98-260 | after safe, smart or deep, the replayed device knows exactly the readable registers of the range, with their values, at every time |
| `Exchange.DeviceLink.Exchange` | internal/modbus/client.go:369-429 | the uses of timer, dial and device of a call are those of the loop, in order; all but the last let it go on; the call ends with the use that does not, or after all attempts, and returns exactly the error of its uses; each attempt is committed once |
| `Exchange.DeviceLink.Round` | internal/modbus/client.go:374-427 | one round of the retry loop: where it leaves the call, or the error that ends it |
| `Exchange.DeviceLink.Reconnect` | internal/modbus/client.go:229-237 | closes and dials; the link stays closed if that fails |
| `Exchange.DeviceLink.Transact` | internal/modbus/client.go:210-226 | an attempt opens, reports its exchanges and commits under one token; an error exactly if a kept attempt could not be saved |
| `Calls.CoursePersists` | internal/modbus/client.go:377-425 | no failed wait, dial or commit is passed over; an attempt is followed by anything only after a busy or gateway exception or a lost connection |
| `Calls.AttemptIsFollowed` | internal/modbus/client.go:401-428 | after a busy or gateway exception comes a wait, unless it was the last attempt and waits are made anyway; after a lost connection a dial; after anything else nothing |
| `Calls.AttemptIsPreceded` | internal/modbus/client.go:374-387 | an attempt is made on an open link, and behind a wait if waits are configured |
| `Calls.KeptIff` | internal/capfile/recorder.go:156-168 | recorded are the attempts that were answered, and those refused by an exception if exceptions are recorded |
| `Calls.UsesAreAllowed` | internal/modbus/client.go:374-425 | a wait before each attempt if configured, a dial if the link is closed, and after a failed attempt a pause or a new connection |
| `Calls.UsesTurnOut` | internal/modbus/client.go:374-425 | each use is what the world has at its moment; a call takes consecutive moments |
| `Calls.LostIsReported` | internal/modbus/client.go:387-397 | an attempt that could not be saved is the last use, and its error is returned |
| `Calls.UnendedReturns` | internal/modbus/client.go:401-428 | a call that used up its attempts returns the read error of the last one |
| `Calls.SuccessIsAnswered` | internal/modbus/client.go:395-399 | a call with one attempt that returns no error had it answered and saved |
| `Calls.AttemptDecides` | internal/modbus/client.go:369-429 | with one attempt and no failed wait or dial, the call returns what became of the attempt |
| `Exchange.EachIsCommittedOnce` | internal/modbus/client.go:387-395 | the recorder commits exactly the attempts that were made, in order |
| `Capfile.FailedAttemptsLeaveNothing` | internal/capfile/recorder.go:135-190 | dropping all calls of failed attempts from any interleaving leaves the same file |
| `Capfile.InterleavingIsSerial` | internal/capfile/recorder.go:135-190 | any interleaving leaves the file of the attempts run one after the other |
| `Capfile.AllOrNothing` | internal/capfile/recorder.go:156-190 | the file holds all reads of the kept attempts and nothing else if and only if each of them was savable |
| `Capfile.PartOfAnAttempt` | internal/capfile/recorder.go:170-184 | a write that fails in the middle of an attempt leaves its first part in the file |
| `Capfile.SavedIsPrefix` | internal/capfile/recorder.go:170-184 | what is saved of an attempt is a prefix, and all of it exactly if nothing is unsupported and no write fails |
| `Capfile.SamplesTellReads` | internal/capfile/recorder.go:170-184 | the samples of an attempt tell, in order, its exchanges that are no writes: request, response, time and stream |
| `Capfile.SavedTellsReads` | internal/capfile/recorder.go:170-184 | what an attempt leaves in the file tells the first of these, and all of them if it was savable |
| `Capfile.FileTellsExchanges` | internal/capfile/recorder.go:156-184 | every sample in the file tells an exchange of a kept attempt that is no write |
| `Capfile.RecordedRequests` | internal/capfile/functions.go:17-46 | which requests a capture may hold, function by function |
| `Capfile.WritesAreSkipped` | internal/capfile/recorder.go:174-176 | the write functions; none is a request a capture may hold |
| `Capfile.Recorder.Begin` | internal/capfile/recorder.go:135-141 | a fresh token with nothing collected |
| `Capfile.Recorder.OnPDU` | internal/capfile/recorder.go:146-154 | collects an exchange under its token only |
| `Capfile.Recorder.Commit` | internal/capfile/recorder.go:159-190 | writes or drops exactly the exchanges of its token, and says if something was left out |
| `Capfile.Recorder.Save` | internal/capfile/recorder.go:172-184 | the writing loop: skips writes, stops at an unsupported request or a failed write |
| `Capfile.Recorder.Close` | internal/capfile/recorder.go:193-204 | nothing changes the file afterwards |
| `History.ReplayIsPlainReading` | internal/replay/replay.go:128-138 | searching the change list of the sorted samples finds what a linear scan of all samples in file order finds |
| `History.HeldIs` | internal/replay/replay.go:207-220 | what holds at a time: the latest point, else the first one or nothing, as configured |
| `History.HeldIsShownLast` | internal/replay/replay.go:128-172 | from the samples themselves: the last value of the sample that shows last at that time |
| `History.HeldIsShown` | internal/replay/replay.go:128-172 | nothing is held that no sample shows |
| `History.CompressHolds` | internal/replay/replay.go:167-172 | a change list holds what its history holds, at every time |
| `History.SortKeepsScan` | internal/replay/replay.go:126-129 | sorting samples by time changes no reading |
| `History.SortIsStable` | internal/replay/replay.go:126-129 | samples of one time keep their order |
| `History.SortIsOrdered` | internal/replay/replay.go:126-129 | the samples come out in time order, none lost |
| `History.Search` | internal/replay/replay.go:215-215 | binary search for the first point later than t |
| `History.Index` | internal/replay/replay.go:211-220 | the position of the value that holds at t, before the first sample as configured |
| `Replay.Build` | internal/replay/replay.go:98-142 | the device of the last target of that id, from the samples of its wanted streams but exceptions; its reading is the plain one; unknown targets are an error |
| `Replay.WantedStreamsAre` | internal/replay/replay.go:107-125 | a device plays all streams of its target, or those of them that are named |
| `Replay.HostedAre` | internal/replay/replay.go:112-126 | the samples of these streams but exceptions |
| `Replay.KeptWhere` | internal/replay/replay.go:144-165 | FC01-04 by address, FC43 with MEI type 14 by object, all others by request |
| `Replay.ValuesAtIs` | internal/replay/replay.go:148-153 | the value of a split sample for an address |
| `Replay.Device.Add` | internal/replay/replay.go:144-165 | adds a sample to exactly the lists it shows something of |
| `Replay.MergeAddresses` | internal/replay/replay.go:148-153 | each value goes to its address, counted in 16 bits |
| `Replay.MergeObjects` | internal/replay/replay.go:185-197 | merges the whole objects of a page, and stops at a truncated one |
| `Replay.PageRoundTrip` | internal/replay/replay.go:174-198 | a page gives back the objects and the conformity level it was made of |
| `Replay.CutPage` | internal/replay/replay.go:186-197 | a page cut short gives a prefix of its objects |
| `Replay.Device.Values` | internal/replay/replay.go:233-247 | the plain reading of each address; fails exactly if one is unknown or the request spans no valid range |
| `Replay.Device.Lookup` | internal/replay/replay.go:251-261 | the same address by address, with zero where unknown |
| `Replay.Device.ValuesIffLookupHasAll` | internal/replay/replay.go:233-261 | Values succeeds exactly if the range is valid and Lookup has every address of it, and then with the values of Lookup |
| `Replay.Device.RangeSplits` | internal/replay/replay.go:233-247 | reading a range is reading its two parts |
| `Replay.Device.Response` | internal/replay/replay.go:281-288 | the plain reading of exactly this request |
| `Replay.Device.Identification` | internal/replay/replay.go:293-307 | the objects known at t in id order, and the latest conformity level |
| `Replay.Device.HasFunction` | internal/replay/replay.go:264-277 | whether any hosted sample shows something of the function |
| `Replay.Device.Read` | internal/replay/replay.go:313-351 | the answer carries the plain reading byte by byte, and decoding it gives back the values; answered exactly for valid requests whose addresses are all known |
| `Replay.Device.AnswerableIff` | internal/replay/replay.go:313-334 | such a request, byte by byte: 1 to 2000 bits or 1 to 125 registers that end by 65535 |
| `Replay.Device.ReadIsRecorded` | internal/replay/replay.go:144-153 | a value that is read is that of some hosted sample of the function, for the address |
| `Replay.Device.ResponseIsRecorded` | internal/replay/replay.go:154-165 | a response that is given was recorded to the same request |
| `Replay.Device.ConformityIsRecorded` | internal/replay/replay.go:176-182 | the conformity level was recorded in an identification page |
| `Replay.Device.ObjectIsRecorded` | internal/replay/replay.go:183-198 | an object was recorded in an identification page |
| `Pdu.PackCoilsToBytes` | internal/modbus/client.go:339-348 | the k-th bool is the bit of value 2^(k % 8) in byte k / 8, and the padding is zero |
| `Pdu.UnpackPacked` | internal/replay/replay.go:335-342 | unpacking undoes packing |
| `Pdu.WordsOfBytes` | internal/replay/replay.go:344-348 | big-endian words come back |
| `Pdu.Encode` | internal/replay/replay.go:335-350 | the bytes of the response: function, length, bits lowest first or words high byte first; decoding them gives the values back |
| `Serve.CaptureHandler.Values` | internal/modbus/server.go:180-198 | known values as they are; otherwise counted, and answered by an exception, silence, or zeros with known addresses kept |
| `Serve.CaptureHandler.ValuesOf` | internal/modbus/server.go:180-198 | the answer as a function of the plain reading and of what the capture shows |
| `Serve.CaptureHandler.ZeroFill` | internal/modbus/server.go:188-196 | zeros keep the recorded values |
| `Serve.CaptureHandler.Absent` | internal/modbus/server.go:164-178 | silence, zeros for FC01-04, or the exception for an unknown function or address |
| `Serve.CaptureHandler.ExceptionTells` | internal/modbus/server.go:164-178 | the exception for the function says that no sample of it is hosted, that for the address that some is |
| `Serve.CaptureHandler.Response` | internal/modbus/server.go:236-249 | the recorded response if it fits the function and length, otherwise counted and absent |
| `Serve.CaptureHandler.Coils` | internal/modbus/server.go:200-216 | the answer of Values as booleans, with its refusals and its count; writes are refused |
| `Clock.AtStaysInWindow` | internal/replay/clock.go:30-55 | stays in [From, To]; shows To exactly when all loops are played |
| `Clock.AtShowsTick` | internal/replay/clock.go:45-54 | behind the loops played, a tick is shown from when it has come until the next one comes |
| `Clock.TicksTakeTime` | internal/replay/clock.go:30-41 | the ticks played take the elapsed time, at the given speed |
| `Clock.OverIsAllPlayed` | internal/replay/clock.go:42-44 | all loops are played exactly when the ticks reach loops times the span |
| `Clock.NeverLeavesEnd` | internal/replay/clock.go:42-44 | never leaves To again |
| `Clock.MonotoneInLoop` | internal/replay/clock.go:45-54 | does not go back inside a loop |
| `Clock.MonotoneOnce` | internal/replay/clock.go:30-55 | does not go back at all when played once |
| `Clock.Periodic` | internal/replay/clock.go:45-54 | repeats after each span while looping |
| `Hosts.IncIP` | internal/modbus/discover.go:218-225 | counts up in place, with carry |
| `Hosts.IncAddsOne` | internal/modbus/discover.go:218-225 | that adds one modulo 256^n to the big-endian value |
| `Hosts.ForEachAssignableHost` | internal/modbus/discover.go:182-216 | yields the hosts of the network in order until told to stop, and all of them otherwise; in 0.0.0.0/0 it goes around the space until told to stop |
| `Hosts.HostsAscend` | internal/modbus/discover.go:203-214 | in increasing order, once each |
| `Hosts.HostsAreAssignable` | internal/modbus/discover.go:182-216 | all addresses of a span of one or two, otherwise all but the first and last |
| `Hosts.HostsAreExactIff` | internal/modbus/discover.go:182-216 | these are the assignable addresses of the network if and only if the IPv4-mapped block does not lie in its middle |
| `Hosts.ContainsByBytes` | internal/modbus/discover.go:182-216 | a network with a prefix of whole bytes holds the addresses that begin with them |
| `Hosts.NameOfMapped` | internal/modbus/discover.go:158-178 | an IPv4-mapped address counts as the IPv4 address of its last four bytes, any other one as itself |
| `Hosts.NextIsInside` | internal/modbus/discover.go:203-214 | counting up leaves a network after its span, except for the whole IPv4 space, which it never leaves |
| `Hosts.NeverStops` | internal/modbus/discover.go:203-214 | an enumeration that is not stopped goes on for ever, with the count within its limit after any number of visits |
| `Hosts.AllStopBelow` | internal/modbus/discover.go:158-178 | with a limit below 2^32 the count comes to an end for all subnets |
| `Hosts.DiscoverHostCountAtMost` | internal/modbus/discover.go:158-178 | the number of distinct hosts, or one more than the limit beyond it; a bad subnet is an error unless the limit is passed before it |

## Left out

- Completeness of linear and stepped: not promised by the code; linear jumps 125 registers
  after a block without a tail.
- The commands, flags, output formats, progress and debug lines: wiring.
- Transports, TLS, serial lines, ARP and file access: only whether they fail is modelled.
- `AddTarget`, `AddStream`, recorder paths and the bytes of the capture format.
- The server's handlers for FC07, FC08, FC11, FC12, FC17, FC20, FC24 and FC43 beyond
  `Serve.CaptureHandler.Response` and `Replay.Device.Identification`: they only take fields
  out of a response.
- `serveTargets`, decoding, codecs, string and frequency analysis, profiles.
- Concurrency of the recorder is modelled as any order of its calls; the mutex itself is not.
- SmartQueue.Push: on a sequence, so the update in place of the heap's slice is not captured.
- SmartQueue.Pop: as Push.
- Hosts.DiscoverHostCountAtMost: requires that the enumeration ends, which it does unless
  0.0.0.0/0 does not bring the count above the limit; limits are not negative.
- Hosts.ForEachAssignableHost: as Hosts.DiscoverHostCountAtMost.
- Replay.Device.HasFunction: assumes that no sample has an empty request, which loading a
  capture guarantees.
- Exchange.DeviceLink.Exchange: the time stamps it returns are not modelled.
