# PixieSDK crate, fixtures and simulator in Dafny

This project models three parts of the Pixie-16 SDK and proves properties of them.

- **Analog front-end fixtures** (`fixture.cpp`):
  - the `average` and `linear_fit` accumulators;
  - `channel_baseline`: a histogram of ADC codes, a weighted mean around the mode, and a tolerance compare;
  - the DB04 channel fixture with its ADC swap state and the bit-packed offset-DAC command word;
  - the `afe_dbs` module fixture, with the ADC swap detection of `boot` and the offset convergence loop of `adjust_offsets`;
  - the settle-period query and both `make` factories.
- **The crate** (`crate.cpp`, `crate.hpp`): the ordered `modules` and `offline` collections and the operations that move modules between them (`initialize`, `set_offline`, `move_offlines`, `assign`, `shutdown`). Also:
  - `probe`, `boot` and `initialize_afe`;
  - lookup by number and by slot;
  - `check_revision` and `check_slots`;
  - the `ready_` flag, the `users_` count and the checks of a `module_handle`.
- **The simulator** (`sim.cpp`):
  - the strict `label=value` parser of module definitions and its line loader;
  - the lenient variable-defaults line parser;
  - the simulated module's `open`, `close`, `probe` and `boot`.

Layout, one Dafny module per file:

| file | module | what it holds |
|---|---|---|
| `errors.dfy` | `Errors` | error codes, `Outcome` (pass or a thrown code) and `Result` |
| `accumulators.dfy` | `Accumulators` | `average` and `linear_fit` |
| `baseline.dfy` | `Baseline` | `channel_baseline` |
| `fixture.dfy` | `Fixture` | channel fixtures (`db`, `db04`), settle period, `make` |
| `afedbs.dfy` | `AfeDbs` | the `afe_dbs` module fixture |
| `crate.dfy` | `Crate` | the crate |
| `sim.dfy` | `Sim` | the simulator |

How the model is built:

- State the source updates in place is a `class`: the crate, a channel baseline, the accumulators, the fixtures, the simulated module and the global list of module definitions. Its methods are proved against specification functions. The properties are lemmas about those functions.
- A thrown `pixie::error` is the `Fail(code)` of an `Outcome` or the `Err(code)` of a `Result`.
- Hardware reads (baselines, traces) and the results of module operations the crate calls but this model does not contain (a module's `open`, `probe`, `boot`, `close`, `sync_hw`) are inputs.
- Hardware writes and calls into collaborators (FIPPI and DAC writes, the backplane, `set_number_by_slot`, `order_by_*`) are recorded in sequences, not performed.
- Modules in the crate are values carrying an `id` that stands for the module object's identity.

Where the code and the names or comments around it disagree, the model follows the code:

- `shutdown` calls its code `first_error`, but every failure overwrites it, so the last failure is raised.
- Between two baselines, `==` is exact while `!=` is the tolerance test.
- In `adjust_offsets`, only a channel's first out-of-tolerance reading takes the fixed 200-step, because the fit already holds that reading when its count is compared with 2.

## Model

| member | source | states |
|---|---|---|
| Accumulators.Average.constructor | sdk/src/pixie/pixie16/fixture.cpp:48 | `avg` 0, `max` INT_MIN, `min` INT_MAX, `count` 0 and no samples |
| Accumulators.Average.Update | sdk/src/pixie/pixie16/fixture.cpp:49-54 | the sample is added to the running sum, `max`/`min` take it when it is larger/smaller, `count` rises by one |
| Accumulators.Average.Calc | sdk/src/pixie/pixie16/fixture.cpp:55 | `avg` becomes the mean of the samples truncated toward zero (0 with none), and lies between the recorded minimum and maximum |
| Accumulators.ExtremesBound | sdk/src/pixie/pixie16/fixture.cpp:50-52 | the running minimum and maximum bound every sample |
| Accumulators.MeanWithinExtremes | sdk/src/pixie/pixie16/fixture.cpp:49-55 | the truncated mean of a non-empty series lies between its minimum and maximum |
| Accumulators.LinearFit.constructor | sdk/src/pixie/pixie16/fixture.cpp:78 | no samples, `k` and `c` zero |
| Accumulators.LinearFit.Update | sdk/src/pixie/pixie16/fixture.cpp:80-86 | the sample is recorded (the running sums are functions of the samples) and `k`, `c` are untouched |
| Accumulators.LinearFit.Calc | sdk/src/pixie/pixie16/fixture.cpp:88-92 | `k` and `c` are the least-squares slope and intercept of the samples |
| Accumulators.LinearFit.Y | sdk/src/pixie/pixie16/fixture.cpp:94-96 | `y(x)` is the line `k x + c` at `x`, converted to `int` (its property is stated by `YOnLine`) |
| Accumulators.LineAt | sdk/src/pixie/pixie16/fixture.cpp:94-96 | the line `k x + c` at `x`, truncated toward zero; shared by `y` and the offset loop's fitted DAC |
| Accumulators.YOnLine | sdk/src/pixie/pixie16/fixture.cpp:88-96 | after `calc` on samples that lie on `y = K x + C` (not all at one x), `y(x)` is that line at every `x` |
| Accumulators.DivisorNonPositive | sdk/src/pixie/pixie16/fixture.cpp:89 | the divisor `sum_x^2 - count*sum_x_sq` is never positive |
| Accumulators.TwoPointDivisor | sdk/src/pixie/pixie16/fixture.cpp:89 | for two samples the divisor is `-(x1-x2)^2`, zero iff the x values are equal |
| Accumulators.DivisorNonzeroAfterDistinctPair | sdk/src/pixie/pixie16/fixture.cpp:80-89 | once the first two samples have distinct x the divisor stays nonzero whatever follows |
| Accumulators.FitRecoversLine | sdk/src/pixie/pixie16/fixture.cpp:88-92 | samples on a line `y = K x + C` (not all x equal) give back exactly `k == K` and `c == C` |
| Accumulators.FitExample | sdk/src/pixie/pixie16/fixture.cpp:88-96 | the two samples (100, 0), (300, 100) fit `0.5 x - 50`, which gives 200 at 500 |
| Baseline.ClampNoise | sdk/src/pixie/pixie16/fixture.cpp:319-323 | the noise percentage is clamped into [0, 100] and kept when already inside |
| Baseline.ChannelBaseline.constructor | sdk/src/pixie/pixie16/fixture.cpp:317-324 | channel -1, no ADC bits, no runs, baseline -1, clamped noise percentage |
| Baseline.ChannelBaseline.Start | sdk/src/pixie/pixie16/fixture.cpp:326-333 | exactly `2^adc_bits` zeroed bins, `runs == 0`, `baseline == -1` |
| Baseline.ClampSample | sdk/src/pixie/pixie16/fixture.cpp:356-359 | the bin a sample is counted in is always in range: the sample itself, or the last bin for a sample off the end |
| Baseline.ClampSampleAsWrittenOutOfRange | sdk/src/pixie/pixie16/fixture.cpp:356-359 | with the guard as written, a sample equal to the bin count indexes one past the end |
| Baseline.ChannelBaseline.Update | sdk/src/pixie/pixie16/fixture.cpp:353-361 | the bins become the histogram plus the trace, the total count rises by exactly the trace length, `runs` by exactly one |
| Baseline.AddTraceTotal | sdk/src/pixie/pixie16/fixture.cpp:355-360 | every sample of a trace lands in exactly one bin |
| Baseline.AddTraceBins | sdk/src/pixie/pixie16/fixture.cpp:355-360 | counting a trace never lowers a bin, and a bin no sample reaches keeps its count |
| Baseline.FirstMaxIsFirstMax | sdk/src/pixie/pixie16/fixture.cpp:340-341 | the mode is the first index of the largest count |
| Baseline.FindMode | sdk/src/pixie/pixie16/fixture.cpp:340-341 | the `max_element` loop finds the first largest bin |
| Baseline.SumWindow | sdk/src/pixie/pixie16/fixture.cpp:344-349 | the loop computes the weighted sum and the sample count over the window |
| Baseline.ChannelBaseline.End | sdk/src/pixie/pixie16/fixture.cpp:335-351 | the baseline is the weighted mean over `[max(mode-30,0), min(mode+30,size))` and lies in that window |
| Baseline.BaselineInWindow | sdk/src/pixie/pixie16/fixture.cpp:340-350 | `from_bin <= baseline < to_bin` whenever the window holds samples |
| Baseline.ModeWindowNonEmpty | sdk/src/pixie/pixie16/fixture.cpp:340-350 | a histogram with any sample has samples in its mode's window, so `end` does not divide by zero |
| Baseline.RangeBounds | sdk/src/pixie/pixie16/fixture.cpp:373-380 | the tolerance is 1 at zero noise, otherwise the truncated percentage of the ADC range, and never above the range |
| Baseline.Range | sdk/src/pixie/pixie16/fixture.cpp:375-378 | the half-width of the `operator==(int)` window: 1 at zero noise, else the noise percentage of `2^adc_bits` truncated (bounds proved by `RangeBounds`) |
| Baseline.Within | sdk/src/pixie/pixie16/fixture.cpp:379 | a baseline lies in `[bl - range, bl + range]`, both ends included |
| Baseline.ChannelBaseline.EqualsBaseline | sdk/src/pixie/pixie16/fixture.cpp:363-366 | `operator==` between baselines is exact equality (`ComparisonAsymmetry`, `ComparisonsAgreeOnEqual`) |
| Baseline.ChannelBaseline.EqualsInt | sdk/src/pixie/pixie16/fixture.cpp:373-380 | `operator==(int)` holds iff the baseline is within `Range` of `bl` (`DefaultToleranceExample`) |
| Baseline.ChannelBaseline.NotEqualsInt | sdk/src/pixie/pixie16/fixture.cpp:382-385 | `operator!=(int)` is the negation of `operator==(int)` |
| Baseline.ChannelBaseline.NotEqualsBaseline | sdk/src/pixie/pixie16/fixture.cpp:368-371 | `operator!=` between baselines is the tolerance test against the other's baseline, so it is not the negation of `==` (`ComparisonAsymmetry`) |
| Baseline.DefaultToleranceExample | sdk/src/pixie/pixie16/fixture.cpp:373-380 | at 12 bits and 0.5% the tolerance is 20 codes: 2068 compares equal to 2048 and 2069 does not |
| Baseline.ComparisonAsymmetry | sdk/src/pixie/pixie16/fixture.cpp:363-371 | baselines 2048 and 2049 are neither `==` nor `!=` |
| Baseline.ComparisonsAgreeOnEqual | sdk/src/pixie/pixie16/fixture.cpp:363-385 | `==` and `!=` between baselines never both hold |
| Fixture.ToValueTypeRange | sdk/src/pixie/pixie16/fixture.cpp:770-771 | DAC values 0..65535 stay within 16 bits when passed to `set_dac`, and -1 becomes 0xffffffff |
| Fixture.NextSwapState | sdk/src/pixie/pixie16/fixture.cpp:429-437 | the swap state after `set("ADC_SWAP", v)`: only the boot state changes (`SwapStateSetOnce`) |
| Fixture.SwapStateSetOnce | sdk/src/pixie/pixie16/fixture.cpp:429-437 | `ADC_SWAP` records the decision from the boot state and never changes it afterwards |
| Fixture.DacWordDecodes | sdk/src/pixie/pixie16/fixture.cpp:537 | address, control and value decode back from the packed word |
| Fixture.DacAddrSelectsHalf | sdk/src/pixie/pixie16/fixture.cpp:502 | offsets below 4 address 0x22, the others 0x20 |
| Fixture.DacCtrlTable | sdk/src/pixie/pixie16/fixture.cpp:513-533 | the control for offsets 0..7 is 0x30 plus 1, 2, 0, 3 by offset mod 4 |
| Fixture.DacSelectionInjective | sdk/src/pixie/pixie16/fixture.cpp:502-537 | the eight channels of a board reach eight different DAC outputs |
| Fixture.DacAddr | sdk/src/pixie/pixie16/fixture.cpp:502 | the DAC address `0x20`, with bit 1 set for offsets below 4 (`DacAddrSelectsHalf`) |
| Fixture.DacCtrl | sdk/src/pixie/pixie16/fixture.cpp:513-533 | the DAC output select `0x30` plus the swap-compensating output of the offset (`DacCtrlTable`) |
| Fixture.DacWord | sdk/src/pixie/pixie16/fixture.cpp:537 | the `[addr(8), ctrl(8), data(16)]` CFG_DAC word (`DacWordDecodes`, `DacSelectionInjective`) |
| Fixture.ChannelFixture.Make | sdk/src/pixie/pixie16/fixture.cpp:1074-1086 | a DB04 channel gets the DB04 fixture with its board number, base and offset `channel - base`; any other kind has no board fields; both start in the boot swap state |
| Fixture.ChannelFixture.SetBool | sdk/src/pixie/pixie16/fixture.cpp:429-437 | only a DB04 accepts `ADC_SWAP`; anything else throws `internal_failure` and changes nothing |
| Fixture.ChannelFixture.GetBool | sdk/src/pixie/pixie16/fixture.cpp:552-558 | a DB04 answers `HAS_OFFSET_DAC` (true) and `ADC_SWAP` (swapped state); every other query throws `internal_failure` |
| Fixture.ChannelFixture.GetInt | sdk/src/pixie/pixie16/fixture.cpp:560-566 | a DB04 answers the settle period (250), board number and offset; every other query throws `internal_failure` |
| Fixture.ChannelFixture.GetReal | sdk/src/pixie/pixie16/fixture.cpp:459-461 | no fixture answers a `double` query |
| Fixture.ChannelFixture.SetDac | sdk/src/pixie/pixie16/fixture.cpp:487-546 | the default fixture throws `internal_failure`; a DB04 throws `invalid_value` above 65535 and otherwise selects port `number + 1` and writes the packed word |
| Fixture.SettlePeriodValue | sdk/src/pixie/pixie16/fixture.cpp:250-261 | the longest settle period is 250 ms when every channel is a DB04 (0 with none), `internal_failure` when any is not |
| Fixture.SettlePeriodOf | sdk/src/pixie/pixie16/fixture.cpp:256-261 | the `max` fold of the channels' settle periods from 0, stopping at the first failing query (`SettlePeriodValue`) |
| Fixture.SettlePeriod | sdk/src/pixie/pixie16/fixture.cpp:256-261 | the `max` loop computes that fold, stopping at the first failure |
| Fixture.MakeModuleFixture | sdk/src/pixie/pixie16/fixture.cpp:1088-1099 | a rev H module gets the `afe_dbs` fixture, every other revision the default one |
| AfeDbs.DefaultRange | sdk/src/pixie/pixie16/fixture.cpp:373-380 | the default tolerance is the ADC range over 200, rounded down |
| AfeDbs.SwapDecision | sdk/src/pixie/pixie16/fixture.cpp:601-611 | the per-channel swap test: exact equality for even channels, the tolerance `!=` for odd ones (`SwapDecisionMeaning`) |
| AfeDbs.SwapDecisionMeaning | sdk/src/pixie/pixie16/fixture.cpp:601-611 | an even channel is swapped iff its baselines are exactly equal, an odd one iff they differ by more than the tolerance |
| AfeDbs.Decisions | sdk/src/pixie/pixie16/fixture.cpp:601-611 | one decision per channel, in channel order |
| AfeDbs.SwapFrom | sdk/src/pixie/pixie16/fixture.cpp:612-633 | the swap loop keeps four `adcctrl` words and, when it completes, has visited every channel |
| AfeDbs.SwapCtrlClosedForm | sdk/src/pixie/pixie16/fixture.cpp:618-632 | after the loop each board's word is its old word with exactly the bits `offset / 2` of its swapped channels added |
| AfeDbs.SwapIdempotent | sdk/src/pixie/pixie16/fixture.cpp:623-632 | words already holding every swapped bit are left as they are and nothing is written to the FIPPI |
| AfeDbs.SwapTwice | sdk/src/pixie/pixie16/fixture.cpp:612-633 | running the swap loop a second time changes no word and writes nothing |
| AfeDbs.SwapPassIsStatusFree | sdk/src/pixie/pixie16/fixture.cpp:612-622 | whether the loop fails (default fixture, board number 4 or more), and where, does not depend on the words |
| AfeDbs.VerifySwap | sdk/src/pixie/pixie16/fixture.cpp:639-658 | verification fails iff some channel still passes the swap test against its first baseline |
| AfeDbs.AfeDbsFixture.constructor | sdk/src/pixie/pixie16/fixture.cpp:568-572 | four zero `adcctrl` words and no writes |
| AfeDbs.AfeDbsFixture.FgpaFippiLoaded | sdk/src/pixie/pixie16/fixture.cpp:574-576 | every `adcctrl` word is cleared |
| AfeDbs.AfeDbsFixture.Boot | sdk/src/pixie/pixie16/fixture.cpp:578-672 | a channel without a DB04 makes `boot` throw `internal_failure` before any decision, `adcctrl` change or FIPPI write; otherwise `adcctrl`, the FIPPI writes, each channel's swap state and the outcome are those of the swap loop and the verification |
| AfeDbs.DacFixtures | sdk/src/pixie/pixie16/fixture.cpp:683-687 | setting every channel's DAC passes iff every channel is a DB04, else `internal_failure` (the default fixture's `set_dac`, fixture.cpp:931-932) |
| AfeDbs.AfeDbsFixture.SwapAndVerify | sdk/src/pixie/pixie16/fixture.cpp:600-665 | with every channel a DB04, `adcctrl`, the FIPPI writes, each channel's swap state and the outcome are those of `SwapFrom` over the swap decisions, followed by the verification that gives `module_initialize_failure` |
| AfeDbs.AfeDbsFixture.SwapChannel | sdk/src/pixie/pixie16/fixture.cpp:612-632 | one channel of the swap loop advances the loop function by one step or stops it with its failure; the fixture's swap state follows the decision |
| AfeDbs.HasOffsetDacs | sdk/src/pixie/pixie16/fixture.cpp:716-723 | all answers are true when every channel is a DB04, and `internal_failure` as soon as one is not |
| AfeDbs.HasOffsetDacsOf | sdk/src/pixie/pixie16/fixture.cpp:716-723 | the query loop computes that result |
| AfeDbs.InitialAdjust | sdk/src/pixie/pixie16/fixture.cpp:713-726 | the loop starts from the read `OffsetDAC` values, empty fits and no writes |
| AfeDbs.Targets | sdk/src/pixie/pixie16/fixture.cpp:739 | each channel's target is its percentage of the ADC range |
| AfeDbs.ChannelStep | sdk/src/pixie/pixie16/fixture.cpp:737-773 | one channel in one pass keeps the DAC table's shape and appends exactly its own DAC write |
| AfeDbs.PassFrom | sdk/src/pixie/pixie16/fixture.cpp:735-775 | a pass keeps the state's shape |
| AfeDbs.RunsFrom | sdk/src/pixie/pixie16/fixture.cpp:728-782 | the pass loop keeps the state's shape and never runs more than 10 passes |
| AfeDbs.FirstStepLearns | sdk/src/pixie/pixie16/fixture.cpp:749-757 | a channel's first out-of-tolerance reading moves its DAC by exactly 200, down when the target is above the baseline |
| AfeDbs.FitStepHitsLine | sdk/src/pixie/pixie16/fixture.cpp:758-764 | from the second reading on, readings on a line `dac = K bl + C` set the DAC to that line at the target |
| AfeDbs.NextDacOnLine | sdk/src/pixie/pixie16/fixture.cpp:759-763 | with two or more samples on a line, the fitted DAC is the line at the target |
| AfeDbs.PassKeepsChannel | sdk/src/pixie/pixie16/fixture.cpp:735-737 | a channel without an offset DAC is never stepped or sampled in a pass; this is the `has_offset_dac` false branch, which `adjust_offsets` never takes because every answer it gets is true (`HasOffsetDacs`) |
| AfeDbs.RunsKeepChannel | sdk/src/pixie/pixie16/fixture.cpp:728-782 | a channel without an offset DAC keeps its DAC and fit through every pass; like `PassKeepsChannel`, a branch `adjust_offsets` never takes |
| AfeDbs.RunsTerminate | sdk/src/pixie/pixie16/fixture.cpp:728-732 | at most 10 passes; ending without error means the last pass asked for no further pass or all 10 ran |
| AfeDbs.ToValues | sdk/src/pixie/pixie16/fixture.cpp:783-785 | every final DAC is written back as a 32-bit value, converged or not |
| AfeDbs.AfeDbsFixture.RunPass | sdk/src/pixie/pixie16/fixture.cpp:735-775 | one pass's loop computes the pass function and records its DAC writes |
| AfeDbs.AfeDbsFixture.StepChannel | sdk/src/pixie/pixie16/fixture.cpp:736-773 | one channel's step computes the channel step function and records exactly its DAC writes |
| AfeDbs.AfeDbsFixture.RunOnce | sdk/src/pixie/pixie16/fixture.cpp:729-781 | one run advances the runs function by one run, or ends it with the status it stops on, and records its DAC writes |
| AfeDbs.AfeDbsFixture.AdjustOffsets | sdk/src/pixie/pixie16/fixture.cpp:696-788 | the passes, the DAC writes and the written-back values (or the error) are those of the pass loop |
| Crate.DefaultBootParams | sdk/src/pixie/pixie16/crate.cpp:48-50 | force and all three boot flags true, no module list |
| Crate.Crate.constructor | sdk/src/pixie/pixie16/crate.cpp:52 | no modules, revision -1, not ready, no users |
| Crate.Crate.ReadyCheck | sdk/src/pixie/pixie16/crate.cpp:56-60 | passes iff the crate is ready, else `crate_not_ready` |
| Crate.Crate.Busy | sdk/src/pixie/pixie16/crate.cpp:62-64 | busy iff the user count is positive |
| Crate.Crate.Index | sdk/include/pixie/pixie16/crate.hpp:165-173 | the module at `number` iff `0 <= number < num_modules`, else `module_number_invalid` |
| Crate.FindSlot | sdk/include/pixie/pixie16/crate.hpp:184-186 | the `find_if` by slot: `FirstWhere` with the slot test |
| Crate.FirstWhere | sdk/include/pixie/pixie16/crate.hpp:184-186 | the first module that satisfies the test, every earlier one failing it, or none when no module satisfies it |
| Crate.Find | sdk/include/pixie/pixie16/crate.hpp:181-197 | the first online module in the slot, else the first offline one, else `module_number_invalid` |
| Crate.HandleChecks | sdk/include/pixie/pixie16/crate.hpp:361-375 | a handle opens iff the crate is ready and the module passes the requested check; `none` checks nothing |
| Crate.Crate.OpenHandle | sdk/include/pixie/pixie16/crate.hpp:359-376 | an invalid number fails before a user is taken; otherwise the checks decide, and the user count rises by one exactly when the handle opens |
| Crate.Crate.CloseHandle | sdk/src/pixie/pixie16/crate.cpp:44-46 | the user count falls by one |
| Crate.Found | sdk/src/pixie/pixie16/crate.cpp:83-107 | devices in ascending order up to the first missing one or one whose exception escapes |
| Crate.ScanFrom | sdk/src/pixie/pixie16/crate.cpp:83-118 | the device loop only ever appends to `modules` and `offline` |
| Crate.ScanClosedForm | sdk/src/pixie/pixie16/crate.cpp:83-118 | the loop keeps the found present modules online and puts the other found modules offline, both in device order |
| Crate.Crate.Initialize | sdk/src/pixie/pixie16/crate.cpp:70-132 | a second call throws `crate_already_open`; an escaping exception clears `ready`; otherwise `num_modules` is the online count, then revision, slots, numbering and order |
| Crate.Crate.ScanDevices | sdk/src/pixie/pixie16/crate.cpp:83-118 | the device loop leaves `modules`, `offline` and the outcome of the scan function |
| Crate.RevisionOfFirstPresent | sdk/src/pixie/pixie16/crate.cpp:504-529 | the revision is that of the first present module whose revision is not negative; earlier present modules with a negative revision are overwritten, later mismatches change nothing |
| Crate.RevisionAllNegative | sdk/src/pixie/pixie16/crate.cpp:504-529 | when every present module's revision is negative, the revision stays negative and is the last present module's: each one overwrites the one before |
| Crate.RevisionOf | sdk/src/pixie/pixie16/crate.cpp:504-529 | the fold of `check_revision` over the modules from -1 (`RevisionOfFirstPresent`) |
| Crate.RevisionNoPresent | sdk/src/pixie/pixie16/crate.cpp:504-529 | no present module leaves the revision at -1 |
| Crate.RevisionKept | sdk/src/pixie/pixie16/crate.cpp:508-514 | once set to a nonnegative revision, later modules never change it |
| Crate.Crate.CheckRevision | sdk/src/pixie/pixie16/crate.cpp:504-529 | the revision is that fold over `modules` then `offline` |
| Crate.HasDupFor | sdk/src/pixie/pixie16/crate.cpp:457-462 | finds whether a pair is already recorded for the slot |
| Crate.DupsAgainst | sdk/src/pixie/pixie16/crate.cpp:452-469 | checking one module only appends pairs |
| Crate.DupsFrom | sdk/src/pixie/pixie16/crate.cpp:474-482 | the checks over all modules only append pairs |
| Crate.CheckModule | sdk/src/pixie/pixie16/crate.cpp:452-469 | `find_dups::check` for one module computes the pairs that module adds |
| Crate.DupsAgainstAbsent | sdk/src/pixie/pixie16/crate.cpp:453 | a module that is not present records nothing |
| Crate.DupsSound | sdk/src/pixie/pixie16/crate.cpp:452-482 | every pair is two distinct present modules sharing a slot, at most one pair per slot |
| Crate.DupsComplete | sdk/src/pixie/pixie16/crate.cpp:452-482 | every slot two distinct present modules share gets a pair |
| Crate.DupsOfAll | sdk/src/pixie/pixie16/crate.cpp:472-482 | the duplicates found are sound and complete |
| Crate.FindDups | sdk/src/pixie/pixie16/crate.cpp:472-482 | the nested loops compute those duplicates |
| Crate.FixDupOnlySlots | sdk/src/pixie/pixie16/crate.cpp:484-495 | the revision 2 slot repair changes only slots, only to 4, and nothing on other revisions |
| Crate.FixDup | sdk/src/pixie/pixie16/crate.cpp:484-495 | the revision 2 repair of one duplicate pair over both collections (`FixDupOnlySlots`) |
| Crate.FixFromOnlySlots | sdk/src/pixie/pixie16/crate.cpp:484-501 | the whole repair loop changes only slots, only to 4, and nothing on other revisions |
| Crate.Crate.CheckSlots | sdk/src/pixie/pixie16/crate.cpp:445-502 | both collections become the repaired ones; only slots change, only to 4 |
| Crate.CheckSlotsOnlySlots | sdk/src/pixie/pixie16/crate.cpp:484-495 | the repaired tables differ from the scanned ones only in slots set to 4, and not at all off revision 2 |
| Crate.Crate.FixDupOf | sdk/src/pixie/pixie16/crate.cpp:484-495 | one duplicate pair is repaired as the pair repair function says |
| Crate.LastFailureIsLast | sdk/src/pixie/pixie16/crate.cpp:137-144 | the code `shutdown` raises is success iff every close passed, else the last failure's |
| Crate.LastFailure | sdk/src/pixie/pixie16/crate.cpp:137-144 | the code `shutdown` keeps: every failure overwrites it (`LastFailureIsLast`) |
| Crate.Crate.CloseAll | sdk/src/pixie/pixie16/crate.cpp:138-144 | every module is closed and the last failure is held |
| Crate.Crate.Shutdown | sdk/src/pixie/pixie16/crate.cpp:134-150 | every module closed, `modules` cleared, not ready, the last failure raised; the module count is cleared too (corrected) |
| Crate.Crate.ShutdownAsWritten | sdk/src/pixie/pixie16/crate.cpp:134-150 | as written: `num_modules` keeps its value, so with modules before, `operator[]` afterwards accepts numbers for which `modules` holds nothing |
| Crate.IndexOfId | sdk/src/pixie/pixie16/crate.cpp:162-163 | the search for the module object: `FirstWhere` with the identity test |
| Crate.MoveKeepsModules | sdk/src/pixie/pixie16/crate.cpp:165-166 | moving one module to `offline` keeps every module and the order of the others |
| Crate.Crate.SetOffline | sdk/src/pixie/pixie16/crate.cpp:159-172 | exactly that module leaves `modules` (others in order) and is appended to `offline`, `num_modules == modules.size()`; otherwise `module_not_found` and nothing changes |
| Crate.Crate.SetOfflineNumber | sdk/src/pixie/pixie16/crate.cpp:152-157 | an out-of-range number throws `module_number_invalid`, otherwise that module is set offline |
| Crate.Keep | sdk/src/pixie/pixie16/crate.cpp:357-366 | the filter keeps only modules whose property is as wanted, never more modules than it was given |
| Crate.KeepPartition | sdk/src/pixie/pixie16/crate.cpp:355-367 | the two filters of a property together keep every module exactly once |
| Crate.KeepAll | sdk/src/pixie/pixie16/crate.cpp:355-367 | a filter keeps everything iff every module passes it |
| Crate.RemoveFirstFailing | sdk/src/pixie/pixie16/crate.cpp:357-366 | removing the first module that fails a property keeps those that pass and takes it off the front of those that fail |
| Crate.Crate.MoveOfflines | sdk/src/pixie/pixie16/crate.cpp:347-369 | `modules` keeps the online modules in order, all of them online; the others are appended to `offline` in order; the total is unchanged |
| Crate.Crate.FirstOffline | sdk/src/pixie/pixie16/crate.cpp:357-366 | the inner scan finds the first module that is not online, or none |
| Crate.FirstProbeFailure | sdk/src/pixie/pixie16/crate.cpp:179-184 | the first module probe that throws, or none |
| Crate.ProbedFirst | sdk/src/pixie/pixie16/crate.cpp:179-184 | the modules with the first `n` probed |
| Crate.ProbeAnswer | sdk/src/pixie/pixie16/crate.cpp:178-186 | the answer is whether the online count equals `num_modules` |
| Crate.Crate.Probe | sdk/src/pixie/pixie16/crate.cpp:174-187 | not ready throws; otherwise each module is probed, a throw ends the loop, else the backplane is reinitialised and the answer returned |
| Crate.Crate.ProbeEach | sdk/src/pixie/pixie16/crate.cpp:179-184 | the probe loop stops at the first throwing probe; the modules before it take their probed flags; `online` counts the online modules when none throws |
| Crate.AllNumbers | sdk/src/pixie/pixie16/crate.cpp:196-198 | an empty list means `0 .. n-1` |
| Crate.BootNumbers | sdk/src/pixie/pixie16/crate.cpp:196-207 | any requested number `>= modules.size()` throws `module_number_invalid`, otherwise the requested (or all) numbers |
| Crate.Crate.CheckNumbers | sdk/src/pixie/pixie16/crate.cpp:196-207 | the number check loop computes that result |
| Crate.Launched | sdk/src/pixie/pixie16/crate.cpp:219-224 | the launched numbers are the requested ones not skipped, in request order |
| Crate.LaunchedExactly | sdk/src/pixie/pixie16/crate.cpp:219-224 | a module is launched iff requested and not skipped (no revision, or online without force) |
| Crate.FirstFailureIsFirst | sdk/src/pixie/pixie16/crate.cpp:240-248 | the joined code is success iff all are, else the first failure in launch order |
| Crate.FirstFailure | sdk/src/pixie/pixie16/crate.cpp:240-248 | the code the join loop keeps: the first failure in launch order (`FirstFailureIsFirst`) |
| Crate.Crate.JoinFirst | sdk/src/pixie/pixie16/crate.cpp:240-248 | the join loop computes that code |
| Crate.Crate.LaunchBoots | sdk/src/pixie/pixie16/crate.cpp:219-238 | each launched module is booted in order |
| Crate.BootMeaning | sdk/src/pixie/pixie16/crate.cpp:189-255 | `boot` passes iff the numbers are valid, the crate is ready and every launched boot passes; else the first failing code |
| Crate.BootOf | sdk/src/pixie/pixie16/crate.cpp:189-255 | the outcome of `boot` from the module table, the ready flag, the parameters and the per-module boot codes (`BootMeaning`) |
| Crate.Crate.Boot | sdk/src/pixie/pixie16/crate.cpp:189-255 | the number check comes before the ready check; the backplane is reinitialised only when every boot passed |
| Crate.OnlineNumbers | sdk/src/pixie/pixie16/crate.cpp:305-309 | the numbers of the online modules, in order |
| Crate.OnlineNumbersComplete | sdk/src/pixie/pixie16/crate.cpp:305-309 | exactly the online modules are launched |
| Crate.InitializeAfeMeaning | sdk/src/pixie/pixie16/crate.cpp:292-339 | passes iff ready and every online module synchronises, else the first failure |
| Crate.InitializeAfeOf | sdk/src/pixie/pixie16/crate.cpp:292-339 | the outcome of `initialize_afe` from the online modules' `sync_hw` codes (`InitializeAfeMeaning`) |
| Crate.Crate.InitializeAfe | sdk/src/pixie/pixie16/crate.cpp:292-339 | the outcome and the `sync_hw` calls are those of that fold |
| Crate.Renumber | sdk/src/pixie/pixie16/crate.cpp:409 | every module takes its number from the numbering |
| Crate.UnassignMeaning | sdk/src/pixie/pixie16/crate.cpp:414-430 | when the loop passes, `modules` keeps exactly the numbered modules in order, and unnumbered ones are dropped (closed) or appended to `offline` in order |
| Crate.UnassignFrom | sdk/src/pixie/pixie16/crate.cpp:414-430 | the restart loop over the modules without a number, closing or forcing each offline (`UnassignMeaning`, `UnassignCloseMeaning`, `UnassignOfflineMeaning`) |
| Crate.UnassignCloseMeaning | sdk/src/pixie/pixie16/crate.cpp:418-423 | with `close`, a passing loop leaves exactly the numbered modules in order and `offline` as it was |
| Crate.UnassignOfflineMeaning | sdk/src/pixie/pixie16/crate.cpp:418-425 | without `close`, `modules` keeps the numbered modules in order and the others join `offline` in their original order |
| Crate.UnassignForceOfflinePasses | sdk/src/pixie/pixie16/crate.cpp:414-430 | without closing, the loop always passes, given that `force_offline` does not throw (see Left out) |
| Crate.Crate.DropUnassigned | sdk/src/pixie/pixie16/crate.cpp:414-430 | the restart loop computes that result |
| Crate.Crate.Assign | sdk/src/pixie/pixie16/crate.cpp:402-439 | not ready throws; an error resets numbering by slot with `num_modules == modules.size()`; success orders by number and reinitialises the backplane |
| Crate.Crate.AssignNumbered | sdk/src/pixie/pixie16/crate.cpp:412-438 | after numbering, the modules and offline list are those `UnassignFrom` leaves; a pass orders by number and reinitialises the backplane, a failure resets numbering by slot; either way `num_modules == modules.size()` |
| Sim.Stoul | sdk/src/pixie/pixie16/sim.cpp:266-283 | `stoul` yields a value within `unsigned long` or a standard exception |
| Sim.StoulDecimalText | sdk/src/pixie/pixie16/sim.cpp:266-283 | `stoul` reads back the decimal text of every `unsigned long`, whatever non-digit text follows |
| Sim.DefaultDef | sdk/src/pixie/pixie16/sim.cpp:228-230 | every numeric field 0 and `var-defaults` empty |
| Sim.SetNum | sdk/src/pixie/pixie16/sim.cpp:266-283 | a numeric label sets its own field and no other |
| Sim.ErrorCode | sdk/src/pixie/pixie16/sim.cpp:261-293 | every rejection is `invalid_value` |
| Sim.ApplyFieldMeaning | sdk/src/pixie/pixie16/sim.cpp:259-294 | a field is accepted iff it is `label=value` with a known label and a readable value, and sets only the field it names |
| Sim.ApplyField | sdk/src/pixie/pixie16/sim.cpp:259-294 | one `label=value` field applied to a definition, or `invalid_value` (`ApplyFieldMeaning`) |
| Sim.ParseFields | sdk/src/pixie/pixie16/sim.cpp:256-295 | the fields applied in order from the default definition, stopping at the first rejection (`ParseFieldsAccepts`, `ParseFieldsLastWins`) |
| Sim.ParseFieldsAccepts | sdk/src/pixie/pixie16/sim.cpp:258-295 | a definition parses iff every field is accepted |
| Sim.ParseFieldsLastWins | sdk/src/pixie/pixie16/sim.cpp:256-295 | each field holds the value of the last field naming it, and unnamed fields keep their defaults |
| Sim.ApplyFields | sdk/src/pixie/pixie16/sim.cpp:256-295 | the field loop of `add_module_def` computes the parse of the fields, stopping at the first rejection |
| Sim.Registry.AddModuleDef | sdk/src/pixie/pixie16/sim.cpp:252-300 | on success exactly one definition is appended, on rejection `mod_defs` is unchanged |
| Sim.LoadDefsOnePerLine | sdk/src/pixie/pixie16/sim.cpp:244-250 | a load without rejection adds one definition per non-empty line, in line order |
| Sim.LoadDefs | sdk/src/pixie/pixie16/sim.cpp:244-250 | the lines parsed in order, skipping empty ones, stopping at the first rejection (`LoadDefsOnePerLine`) |
| Sim.Registry.LoadModuleDefs | sdk/src/pixie/pixie16/sim.cpp:244-250 | the definitions appended and the first rejection are those of the line fold |
| Sim.Before | sdk/src/pixie/pixie16/sim.cpp:178 | the text up to the first `#` (or `(`) is a prefix of the line without that character |
| Sim.SetEveryChannel | sdk/src/pixie/pixie16/sim.cpp:197-200 | the variable is set in every channel and nothing else changes |
| Sim.ApplyVarLine | sdk/src/pixie/pixie16/sim.cpp:178-205 | a line keeps the tables' shape, or throws a standard exception from `stoul`; what it stores is stated by `VarLineMeaning` |
| Sim.LoadVars | sdk/src/pixie/pixie16/sim.cpp:177-206 | the line loop keeps the tables' shape; the values it leaves are stated by `LoadVarsModuleLastWins` and `LoadVarsChannelLastWins` |
| Sim.CommentLineIgnored | sdk/src/pixie/pixie16/sim.cpp:178-179 | a comment line changes nothing |
| Sim.VarLineEffect | sdk/src/pixie/pixie16/sim.cpp:183-203 | a line changes only entries of known variables, and marks what it changes dirty |
| Sim.LineTarget | sdk/src/pixie/pixie16/sim.cpp:178-190 | a line names nothing when its text before `#` is empty, it does not split into exactly two parts at `=`, or its label is unknown; otherwise a module variable (checked first) or a channel variable, with the value cut at `(` |
| Sim.VarLineMeaning | sdk/src/pixie/pixie16/sim.cpp:178-205 | an ignored line leaves the tables unchanged; otherwise the line throws iff `stoul` rejects the value; a module variable's line stores the 32-bit value, marked dirty, in that entry alone; a channel variable's line stores it in that entry of every channel and nothing else |
| Sim.LoadVarsModuleLastWins | sdk/src/pixie/pixie16/sim.cpp:177-206 | after a load that throws nothing, each module variable holds the value of the last line naming it, or its old entry when no line does |
| Sim.LoadVarsChannelLastWins | sdk/src/pixie/pixie16/sim.cpp:177-206 | after a load that throws nothing, each channel's entry of a channel variable holds the value of the last line naming it, or its old entry when no line does |
| Sim.LoadVarsStops | sdk/src/pixie/pixie16/sim.cpp:177-188 | after a `stoul` throws, later lines are not read |
| Sim.SimModule.ApplyLine | sdk/src/pixie/pixie16/sim.cpp:178-205 | one line updates the tables in place as the line function says |
| Sim.SimModule.LoadVarDefaults | sdk/src/pixie/pixie16/sim.cpp:176-207 | the tables and the outcome are those of the line fold |
| Sim.SimModule.LoadLine | sdk/src/pixie/pixie16/sim.cpp:178-205 | one line advances the line fold by one line, or ends it with the line's error |
| Sim.FirstMatch | sdk/src/pixie/pixie16/sim.cpp:95-96 | the first definition with channels for the device, or none when no definition has them |
| Sim.Resize | sdk/src/pixie/pixie16/sim.cpp:115 | the configurations keep their first entries and are padded with the new one |
| Sim.SimModule.Open | sdk/src/pixie/pixie16/sim.cpp:90-127 | a mapped module throws `module_already_open`; the first matching definition sets the module up, present, FPGA clock `adc_msps / adc_clk_div`; none throws `module_initialize_failure` |
| Sim.SimModule.FindDef | sdk/src/pixie/pixie16/sim.cpp:95-96 | the search finds the first definition with channels for the device, or none |
| Sim.SimModule.SetUp | sdk/src/pixie/pixie16/sim.cpp:103-121 | the module takes the definition's identity and resizes its configurations, present and mapped; flags and variables are unchanged |
| Sim.ConfigOf | sdk/src/pixie/pixie16/sim.cpp:110-114 | each channel's configuration copies the ADC fields; the FPGA clock is the ADC rate divided by the divider, rounded down |
| Sim.SimModule.Close | sdk/src/pixie/pixie16/sim.cpp:129-134 | not present and unmapped |
| Sim.SimModule.Probe | sdk/src/pixie/pixie16/sim.cpp:136-145 | the flags are cleared and `init_values` runs; when it passes all three load flags and online are set, when it throws the flags stay clear and the error escapes |
| Sim.BootFlags | sdk/src/pixie/pixie16/sim.cpp:147-165 | booting never clears a load flag, sets every requested one, and online iff all three are loaded |
| Sim.BootFlagsExactly | sdk/src/pixie/pixie16/sim.cpp:149-164 | a flag is set afterwards iff it was before or was requested; booting twice with the same request is booting once |
| Sim.SimModule.Boot | sdk/src/pixie/pixie16/sim.cpp:147-165 | the requested loads are set, then `init_values` runs; when it passes online is set iff all three are loaded, when it throws online stays clear and the error escapes |
| Sim.SimModule.RequestLoads | sdk/src/pixie/pixie16/sim.cpp:149-161 | the load flags take the boot request and online is cleared |
| Sim.InitValuesOf | sdk/src/pixie/pixie16/sim.cpp:169-174 | no `var-defaults` file passes and changes nothing; an unreadable file throws `file_read_failure` and changes nothing; otherwise the file's lines are loaded and only `stoul` can throw; the tables keep their shape |
| Sim.SimModule.InitValues | sdk/src/pixie/pixie16/sim.cpp:169-174 | the tables and outcome are those of `InitValuesOf` |

## Left out

- Threads, promises, futures and locks in `crate::boot` and `crate::initialize_afe`, and the recursive mutexes. The fan-out is a sequential loop over per-module outcomes.
- Crate.Crate.Boot: requires distinct module numbers. With a repeated number the source calls `get_future` twice, and the `std::future_error` escapes with threads still running.
- Crate.Crate.Boot, Crate.Crate.InitializeAfe: a non-`pixie::error` exception in a thread (rethrown by `future::get`) is not modelled; outcomes are error codes.
- Module operations the crate calls are inputs: the results of a module's `open`, `close`, `probe`, `boot` and `sync_hw`. Their effects other than the flags the crate reads are not modelled.
- Crate.Crate.SetOffline, Crate.Crate.SetOfflineNumber, Crate.Crate.DropUnassigned: `module::force_offline` (its body is not part of this model) is taken never to throw and never to change the module fields the crate reads; it is only recorded as a call. Were it to throw, `set_offline` would leave the module in `modules`, and `assign` would take its error path. Crate.UnassignForceOfflinePasses rests on this.
- The backplane, `module::assign`, `set_number_by_slot`, `order_by_slot` and `order_by_number` are recorded as calls, never applied. `module::assign`'s numbering is an input.
- Crate.Crate.Initialize: the module variable descriptors, `reg_trace`, logging and `add_module`'s allocation are not modelled.
- Crate.FixFromOnlySlots: states only that the repair moves modules to slot 4, not which of the two modules moves. The repair reads each module's current state by identity, which the entries recorded in a pair do not carry.
- `crate::users()`, `output`, `report`, `set_firmware`, `import_config`, `export_config` and `config.cpp` are not part of this model. The getter is the `users` field; the rest is JSON and file I/O.
- Accumulators: C++ `int` overflow is not modelled; integers are unbounded.
- `double` arithmetic is modelled as exact `real` arithmetic (`linear_fit`, noise and baseline percentages). Conversions to `int` truncate explicitly.
- `voffset` settings, `set_channel_voffset`, `analyze_channel_baselines`, trace reads and waits are not modelled. Baselines and traces are inputs.
- AfeDbs.AfeDbsFixture.Boot: of the first `set_channel_voffset`, only its failure on a channel without a DB04 is modelled (`DacFixtures`). The DAC values it writes, and an `invalid_value` for a DAC value above 65535, are not.
- Hardware writes are recorded, not performed: FIPPI `ADCCTRL`, `select_port`, `write_word`.
- `userin_save`, `acquire_adc`, `read_adc` and logging are not part of this model.
- `calc_dac_adc_ratio` is not part of this model (a development mode that is switched off).
- AfeDbs.AfeDbsFixture.constructor: requires distinct channel objects and DB04 offsets below 64. Beyond that the source's `1 << (offset / 2)` shifts past a 32-bit word.
- AfeDbs.WellPlaced: the constructor's requirement also asks for a non-negative DB04 board number and offset. The source reads them from the module's EEPROM (`db_find`, `db_channel_base`, which are not part of this model). A negative board number or offset would index `adcctrl` or shift out of range, and is not modelled.
- Accumulators.LinearFit.Calc: requires a nonzero divisor. The source divides by zero when all x are equal.
- Baseline.ChannelBaseline.End: requires samples in the mode's window. The source divides by zero otherwise.
- Baseline.ChannelBaseline.End: the source sums `bins[i] * i` in a C++ `int`, which can overflow for very long or very many traces. The model's integers are unbounded.
- Crate.Crate.Shutdown: only `pixie::error` is caught around each close. Any other exception escapes mid-loop and leaves the later modules unclosed, `modules` uncleared and `ready` set. Module closes are modelled as error codes only.
- Baseline.ChannelBaseline.Update: requires bins, which `start` provides. Before `start` the source clamps to `size() - 1` of an empty vector.
- AfeDbs.AfeDbsFixture.AdjustOffsets: requires no fit with a zero divisor. The source converts the resulting infinity or NaN to `int`.
- The parameter layer is given as inputs: `util::split`, `util::trim` and `param::is_*_var`/`lookup_*_var`.
- Sim.InitValuesOf: the file `load_var_defaults(file)` opens is an input: whether it could be opened and its lines. Reading it is left out (file I/O), as is the file-name overload of `load_module_defs`.
- The base module's `init_values`, `erase_values`, `erase_channels` and `init_channels` (which `init_values`, `probe` and `boot` call first), the fixture notifications, and the fixture creation in `open`, are not part of this model.
- Sim.SimModule.Open: requires a nonzero `adc-clk-div` in the matching definition. The source divides by zero otherwise.
- Sim.ModuleDef: the field widths of `module_def` are not part of this model. Values are stored as `stoul` read them.
- Sim.Stoul: `unsigned long` is taken to be 64 bits.
- Sim.SimModule.LoadVarDefaults: every channel table is updated. This takes `num_channels` to equal the number of channel tables. Variable indices are required to be in range.
- `param::value_type` is taken to be a 32-bit unsigned integer.

## Findings

| source | as written | input that shows it | evidently intended | confidence | as-written member | corrected member |
|---|---|---|---|---|---|---|
| sdk/src/pixie/pixie16/fixture.cpp:356-359 | `update` moves a sample to the last bin only when it is greater than the bin count | a 12-bit channel (4096 bins) with a sample of 4096 increments `bins[4096]`, one past the end | move every sample not below the bin count (`>=`) | not executed | Baseline.ClampSampleAsWrittenOutOfRange | Baseline.ClampSample |
| sdk/src/pixie/pixie16/crate.cpp:134-150 | `shutdown` clears `modules` but leaves `num_modules` | shut down a crate with two modules, then index module 0: `operator[]` checks 0 against the stale 2 and reads an empty vector | `num_modules` cleared with `modules` | not executed | Crate.Crate.ShutdownAsWritten | Crate.Crate.Shutdown |
