# Verification of the motor driver

Dafny models of the parts of this CANopen motor driver whose correctness is
hard to see from the code, with machine-checked proofs. `dafny verify dfyconfig.toml`
checks everything.

| part | modules |
|---|---|
| Velocity estimation from single-turn positions and wrapping timestamps | `LeastSquares`, `Velocity`, `VelocityTracking` |
| Factory calibration data and the CRC that binds it to a motor | `ShiftRegister`, `PolynomialDivision`, `Crc16`, `CrcValues`, `FactoryData`, `FactoryVector` |
| Multi-turn position accumulation (Q8.24) | `PositionAccumulator` |
| PDO reconfiguration against a device that enforces CiA 301 v4.2.0, sections 7.5.2.35 to 7.5.2.38 | `PdoConfig`, `PdoDevice`, `PdoReconfiguration` |
| Shared frames for several motors | `SharedFrame` |
| The lossy status stream | `StatusStream` |
| Settings transactions and their recovery | `SettingsPlan`, `SettingsRecovery`, `MeowSettings` |
| The mode command object 0x4401 and confirmed mode changes | `ModeCommand`, `FencedCommands` |
| Sessions, identification, initialization and settings of one CiA 402 node | `SessionEntry`, `SessionProtocol`, `SessionSafety`, `SessionTheorems`, `ProvenanceTheorems`, `InitializationTheorems`, `RecoveryTheorems`, `DecisionTheorems`, `ProgressTheorems`, `FaultClearing` |

## How to read it

Code that changes state is a class or a method with loops, proved equal to a
specification function; what the code promises is then proved about those
functions, over every input, run or interleaving. Three conventions hold
throughout:

- Floating point is replaced by exact reals, microseconds and raw Q8.24 units; no
  statement here is about rounding.
- A register or word that is taken apart bitwise is a sequence of bits or a
  number; OR of fields that do not overlap is addition.
- The bus, the clock and other tasks are the environment: an SDO transfer may fail
  with or without effect, and anything may happen between two locked regions.
  Undetermined answers are written as `*` or passed as parameters. A constant
  (`undisturbed`, `calm`) says when the environment does nothing to make a call fail;
  the contracts then say exactly when the call succeeds. Every lemma is proved without
  automatic induction.

The session protocol is a state machine whose steps are the locked regions of the
source. Its u64 counters wrap in the model; the theorems hold for runs of fewer
than 2^64 steps. `sessions` and `nmtChanges` beside them are exact counts of what
happened, against which the fences are judged. Safety is stated over every run,
the guarded steps in both directions (`DecisionTheorems`), and completion of an
operation that is left alone from every reachable state (`ProgressTheorems`).

## What the proofs brought out

- The incremental window equals the whole-history filter as long as its cutoff never
  moves back; a window enlarged at run time by more than the elapsed time misses
  samples already dropped (`GrowingWindowLosesHistory`). Over every run the two agree
  after a frame exactly when that frame's window reaches no dropped sample
  (`WindowRunExact`).
- The comment on `position_accumulation_segment` (src/meow_motor/types.rs:57) says
  that each gap increments the number, so that a caller who missed the invalid frame
  can still detect the break. The code also resets it to 0 when a node is
  initialized again within the same session, so equal numbers across that point do
  not rule out a jump by whole counter wraps (`SegmentReusedAfterReset`). They can be
  trusted exactly when the position, continued without the reset, is still within the
  raw range of 256 revolutions where the new history starts (`AcrossResetExact`).
- Host and device clocks may disagree by anything below 15.537 ms before an aliased
  timestamp can be accepted, and not by more (`AliasingBoundExact`).
- The first write of both PDO lists sets the COB-ID and switches the PDO off at once.
  A device that reads CiA 301 strictly refuses it when the PDO is active under
  another COB-ID; the list is accepted from any state otherwise (`TpdoListConfigures`
  and `RpdoListConfigures`).
- The Boot-Up counter that tells whether a communication reset worked is read before
  the reset is sent, not after. A Boot-Up that arrives in between passes for the answer
  (`BootUpMayPrecedeReset`); one after the sending is certain exactly when the counter
  has changed since the sending (`BootUpBetweenExactly`).
- The checksum detects every change within 16 consecutive bits and misses exactly one
  change within 17 (`SeventeenBitsExact`).

## Model

| member | source | states |
|---|---|---|
| Velocity.VelocityEstimator.Update | src/cia402/velocity.rs:38-77 | Feeding one frame leaves exactly the state of the specification filter; a frame that is not a reset, and no other, returns a slope, and that is the slope of the line of least squared error through the retained samples. |
| Velocity.VelocityEstimator.LeastSquaresSlope | src/cia402/velocity.rs:90-114 | For every window of time-ordered samples: a slope exists exactly for two samples or more, and some line of that slope has the least squared error of all lines. |
| Velocity.TrimIsLongestSuffix | src/cia402/velocity.rs:65-75 | The pop loop ends with the longest suffix that has at most two samples or starts at or after the cutoff. |
| Velocity.HistoryIsOrderly | src/cia402/velocity.rs:38-87 | Over any run the history times are strictly increasing, at least one microsecond apart, and end with the accumulated totals. |
| Velocity.WindowRunExact | src/cia402/velocity.rs:38-87 | Over any run and any windows: after a further frame the deque is the longest retainable suffix of all samples since the last reset if and only if the frame resets, or nothing was dropped before it, or the youngest dropped sample is older than the new cutoff. |
| Velocity.WindowRefinesHistory | src/cia402/velocity.rs:38-87 | Over any run whose cutoff never moves back, the incremental deque equals, after every frame, the longest retainable suffix of all samples since the last reset. |
| Velocity.NonGrowingWindowSuffices | src/cia402/velocity.rs:38-87 | A fixed or shrinking window length is enough for that refinement. |
| Velocity.GrowingWindowLosesHistory | src/cia402/velocity.rs:65-75 | The refinement fails for a window that grows by more than the elapsed time: four concrete frames with positive windows show it. |
| VelocityTracking.UnwrapExact | src/cia402/velocity.rs:52-58 | Unwrapping single-turn readings gives the true motion for less than half a turn, and never for more than half a turn. |
| VelocityTracking.WrappingSubExact | src/cia402/velocity.rs:44-45 | The wrapping timestamp difference is the true elapsed time if and only if that is under 2^32 microseconds. |
| VelocityTracking.ContinuesExactly | src/cia402/velocity.rs:44-49 | The filter starts over exactly on a repeated timestamp or a gap of more than half a second, despite wrapping. |
| VelocityTracking.HistoryTracksTruth | src/cia402/velocity.rs:38-87 | Since the last reset, accumulated position and time are the true displacement and the true elapsed time, for any motion under half a turn per frame since then and any motion before. |
| VelocityTracking.FilterTracksTruth | src/cia402/velocity.rs:38-87 | The same for the filter with its window: accum_pos is the true displacement since the last reset, and the deque holds the true samples of the newest frames. |
| VelocityTracking.WindowHoldsNewest | src/cia402/velocity.rs:38-87 | As long as the window is not enlarged, the deque holds exactly the frames since the last reset from the oldest that the window still covers in true device time, and always the newest two. |
| LeastSquares.SpreadIsPairs | src/cia402/velocity.rs:96-107 | Lagrange identity: n times the sum of products minus the product of sums equals the sum over pairs of products of differences. |
| LeastSquares.PairsWithin | src/cia402/velocity.rs:96-107 | Chebyshev: pairwise speed bounds carry over to the numerator and denominator of the slope, for any spacing. |
| LeastSquares.QuotientIsBestFit | src/cia402/velocity.rs:96-107 | Over any sample times that are not all equal, a number is the slope of a line of least squared error if and only if it is the quotient of the two sums over pairs. |
| Velocity.SlopeIsDefined | src/cia402/velocity.rs:90-113 | The denominator is the sum of squared pairwise time differences, never below the guard, so every window of two samples yields a slope. |
| Velocity.SlopeIsBestFit | src/cia402/velocity.rs:90-114 | The slope of every such window is that of a least-squares line, and no other number is: squared error over all slopes and intercepts decides. |
| VelocityTracking.SlopeShiftInvariant | src/cia402/velocity.rs:96-107 | The slope does not depend on where time and position are measured from. |
| VelocityTracking.SlopeWithinTrueSpeeds | src/cia402/velocity.rs:38-114 | End to end: every frame that is not a reset returns a speed between the smallest and largest true inter-frame speed of the retained window. |
| VelocityTracking.ConstantSpeedIsExact | src/cia402/velocity.rs:38-114 | A constant true speed since the last reset is returned exactly. |
| VelocityTracking.SlopeFitsTruth | src/cia402/velocity.rs:38-114 | End to end: every frame that is not a reset returns the slope of the least-squares line through the true samples of the retained window. |
| Crc16.Crc16CcittFalse | src/meow_motor/calibration.rs:297-310 | The nested loops compute the remainder, dividing bit by bit by z^16 + z^12 + z^5 + 1, of the message followed by 16 zeros with its first 16 bits complemented. |
| PolynomialDivision.FeedIsRemainder | src/meow_motor/calibration.rs:297-310 | Feeding a message gives the remainder, by long division with the 17 bits of the polynomial written out, of the message times z^16 with the initial register added to its first 16 bits. |
| Crc16.ChecksumIsRemainder | src/meow_motor/calibration.rs:297-310 | The checksum of any bytes is that remainder with the first 16 bits complemented. |
| CrcValues.CheckValue | src/meow_motor/calibration.rs:297-310 | The checksum of the nine bytes of "123456789" is 0x29B1. |
| Crc16.ChecksumIsFeed | src/meow_motor/calibration.rs:297-310 | Absorbing bytes and shifting eight times equals feeding the message bit by bit, most significant first. |
| ShiftRegister.ShiftInvertible | src/meow_motor/calibration.rs:301-307 | One step can be undone, so it never merges two register states. |
| ShiftRegister.FeedLinear | src/meow_motor/calibration.rs:297-310 | Linearity over GF(2) for whole messages: the XOR of two checksums is the checksum of the XORs. |
| ShiftRegister.CollideExactly | src/meow_motor/calibration.rs:297-310 | Two messages of one length collide if and only if their XOR has checksum zero from a zero register. |
| ShiftRegister.BurstDetected | src/meow_motor/calibration.rs:297-310 | Any change confined to 16 consecutive bits changes the checksum, for any prefix, suffix and initial register. |
| ShiftRegister.SeventeenBitsExact | src/meow_motor/calibration.rs:297-310 | Within 17 bits exactly one change goes unnoticed: the polynomial itself. |
| ShiftRegister.OddFlipsDetected | src/meow_motor/calibration.rs:297-310 | Flipping any odd number of bits changes the checksum. |
| Crc16.AdjacentBytesDetected | src/meow_motor/calibration.rs:297-310 | Injective in any two adjacent bytes. |
| FactoryData.FactoryCrc16 | src/meow_motor/calibration.rs:284-295 | The pushed transcript gives that checksum over prefix, identity, six words and manifest. |
| FactoryVector.VectorChecksum | src/meow_motor/calibration.rs:506-510 | The frozen words of the identity they were made for have checksum 0x2E25. |
| FactoryVector.VectorDecodes | src/meow_motor/calibration.rs:188-282 | They decode as valid, to the issuance token, torque factor, residual and six friction values written out. |
| FactoryData.HalfWordChangeDetected | src/meow_motor/calibration.rs:188-295 | If words decode as valid for an identity, changing exactly one half-word of any word, or of vendor, product or serial, decodes as missing, with the reason stated. |
| FactoryData.OddBitChangeDetected | src/meow_motor/calibration.rs:188-295 | Flipping any odd number of covered bits decodes as a checksum mismatch. |
| FactoryData.ForeignDataPassesExactly | src/meow_motor/calibration.rs:188-295 | Exactly which other identity or payload gets past the checksum. |
| FactoryData.E4m11Steps | src/meow_motor/calibration.rs:312-331 | From zero up to the reserved exponent each code is one unit in the last place above the previous, through subnormals and across exponents. |
| FactoryData.E4m11Frozen | src/meow_motor/calibration.rs:478-496 | Eight codes, from the smallest subnormal to the largest, have the values listed. |
| FactoryData.E4m11Sign | src/meow_motor/calibration.rs:312-331 | The sign bit negates; negative zero and the reserved exponent are refused and nothing else. |
| FactoryData.E4m11Increasing | src/meow_motor/calibration.rs:312-331 | Larger codes are larger values, so canonical codes are distinct values. |
| FactoryData.ValidDataIsUsable | src/meow_motor/calibration.rs:217-273 | Every field of valid data is the decoded half-word of its place; factor, static and kinetic friction and speed are positive, the residual is not negative, friction is whole or absent. |
| FactoryData.ValidExactly | src/meow_motor/calibration.rs:188-273 | Words decode as valid to a given calibration if and only if manifest and checksum are right and every field of it is the decoded half-word of its place, usable, with friction whole or absent. |
| FactoryData.ReasonExactly | src/meow_motor/calibration.rs:217-264 | Sealed words are missing for a zero token, an unusable torque group or an unusable friction group exactly as stated, in that order. |
| FactoryData.RevisionIsNotBound | src/meow_motor/calibration.rs:184-187 | A firmware update, which changes the revision number only, keeps the calibration. |
| PositionAccumulator.MotorTelemetry.ApplyTpdo1 | src/meow_motor/entry.rs:173-221 | One TPDO1 leaves exactly the state of the specification accumulator: within 50 ms of host time and 1 to 50000 us of device time it extends a valid history by the modular delta or starts one at its raw position, otherwise it breaks it and opens the next segment. |
| PositionAccumulator.MotorTelemetry.ResetTelemetry | src/meow_motor/entry.rs:163-171 | Telemetry is empty again; the session epoch stays. |
| PositionAccumulator.MotorTelemetry.InvalidateSession | src/meow_motor/entry.rs:142-161 | Telemetry is empty again and the session epoch advances. |
| PositionAccumulator.DeltaExact | src/meow_motor/fixed.rs:72-77 | The modular delta is the true displacement if and only if that is in [-128, 128) revolutions, and is off by whole wraps otherwise. |
| PositionAccumulator.FromRevolutionsNearest | src/meow_motor/fixed.rs:54-66 | A target is accepted exactly within the representable range and is off by at most half a unit. |
| PositionAccumulator.FromRevolutionsRoundTrip | src/meow_motor/fixed.rs:54-70 | Converting a raw position to revolutions and back is the identity. |
| PositionAccumulator.RunCongruent | src/meow_motor/entry.rs:173-221 | Over any run of frames the accumulated position stays congruent to the raw position modulo 2^32. |
| PositionAccumulator.NextFrameExactly | src/meow_motor/entry.rs:173-221 | After any frame, the next one continues, restarts or breaks the history exactly by the two limits and by whether a valid one was there. |
| PositionAccumulator.BreakRecovers | src/meow_motor/entry.rs:173-221 | A break costs one frame: the next frame in time is valid at its raw position, in the next segment. |
| PositionAccumulator.SteadyStreamMeasures | src/meow_motor/entry.rs:173-221 | Any stream of frames each in time after the one before stays valid in segment 0, and its accumulated position is the first raw position plus the true displacement up to whole wraps, exactly if no step reaches 128 revolutions. |
| PositionAccumulator.SegmentAccumulates | src/meow_motor/entry.rs:173-221 | A snapshot with the segment number of an earlier valid one is valid, is further by exactly the sum of modular deltas, and nothing between broke the history. |
| PositionAccumulator.SegmentMeasuresDisplacement | src/meow_motor/entry.rs:173-221 | Within a segment the accumulated difference is the true displacement up to whole wraps, and exactly if every step is under 128 revolutions. |
| PositionAccumulator.AliasingBoundExact | src/meow_motor/entry.rs:174-184 | No accepted frame has an aliased u16 timestamp if and only if host and device clocks agree within less than 15.537 ms. |
| PositionAccumulator.VelocityIsTrue | src/meow_motor/entry.rs:174-208 | Under that tolerance a frame in time reports true displacement in revolutions over true elapsed time in seconds. |
| PositionAccumulator.SegmentReusedAfterReset | src/meow_motor/entry.rs:163-171 | A telemetry reset within one session reuses segment 0, so segment numbers do not reveal it: two frames of a motor at rest show a difference of 256 revolutions. |
| PositionAccumulator.AcrossResetExact | src/meow_motor/entry.rs:163-221 | For any frames before, between and after any resets: two valid snapshots differ by the sum of modular deltas if and only if the position continued without the resets is within raw range at the frame where the last history starts. |
| PositionAccumulator.SegmentZeroStartsAtReset | src/meow_motor/entry.rs:163-221 | As long as the segment number after a reset is 0 that frame is the first one after the reset. |
| PdoConfig.PackedInjective | src/canopen/tpdo_config.rs:20-23 | The 32-bit mapping entry determines index, sub-index and length. |
| PdoConfig.LeRoundTrip | src/canopen/tpdo_config.rs:99-148 | Little-endian SDO payloads carry their value. |
| PdoConfig.LowestFirst | src/canopen/tpdo_config.rs:99-148 | The payload bytes are those of the value, lowest first. |
| PdoConfig.BuildTpdoConfigWrites | src/canopen/tpdo_config.rs:172-196 | Refuses exactly recipes outside four PDOs, 1 to 64 entries, 512 bits and an 11-bit COB-ID, and otherwise pushes the specified list. |
| PdoConfig.BuildRpdoConfigWrites | src/canopen/rpdo_config.rs:84-101 | Refuses exactly recipes outside four PDOs, 1 to 64 entries, 512 bits and an 11-bit COB-ID, and otherwise pushes the specified list. |
| PdoDevice.TpdoRun | src/canopen/tpdo_config.rs:172-196 | After any number of writes on a device enforcing the CiA 301 rules the TPDO is in the stated stage, or a write was refused. |
| PdoDevice.RpdoRun | src/canopen/rpdo_config.rs:84-101 | The same for the RPDO list. |
| PdoReconfiguration.TpdoListConfigures | src/canopen/tpdo_config.rs:160-196 | From any device state the whole list is accepted if and only if the recipe is within the limits, its entries are mappable and the first write may switch the PDO off; it then leaves exactly the recipe, switched on under its COB-ID, and no other PDO changes. |
| PdoReconfiguration.RpdoListConfigures | src/canopen/rpdo_config.rs:75-101 | The same for the RPDO list. |
| PdoReconfiguration.TpdoPrefixDisabled | src/canopen/tpdo_config.rs:160-196 | Every proper non-empty prefix leaves the TPDO switched off and every other PDO untouched. |
| PdoReconfiguration.RpdoPrefixDisabled | src/canopen/rpdo_config.rs:75-101 | The same for the RPDO list. |
| PdoReconfiguration.ConfigurationIsUnique | src/meow_motor/manager.rs:955-991 | A configuration is that of at most one recipe. |
| PdoReconfiguration.Node.TpdoRecipeMatches | src/meow_motor/manager.rs:955-991 | A completed read-back says whether the device holds the recipe, exactly. |
| PdoReconfiguration.Node.RpdoRecipeMatches | src/meow_motor/manager.rs:993-1021 | A completed read-back says whether the device holds the recipe, exactly. |
| PdoReconfiguration.Node.WriteAll | src/meow_motor/manager.rs:916-920 | Some prefix of the list has been accepted; all of it on success, and left undisturbed the call succeeds if the device accepts the list. |
| PdoReconfiguration.Node.EnsureTpdoRecipe | src/meow_motor/manager.rs:907-929 | Ok means device configuration equals recipe; after any failure the TPDO is as before, switched off, or as in the recipe, and no other PDO changed; a device that holds the recipe is not written to. Left undisturbed the call succeeds if and only if the device holds the recipe or can accept it. |
| PdoReconfiguration.Node.EnsureRpdoRecipe | src/meow_motor/manager.rs:931-953 | The same for an RPDO. |
| SharedFrame.QuantisedWithinStep | src/cia402/compressed_mit.rs:103-108 | Quantisation rounds down by less than one step of the clamped input and fits its bits. |
| SharedFrame.StepsAreExact | src/cia402/compressed_mit.rs:103-108 | A component in range is worth that many steps of the range, rounded down; one outside is the nearer end of the scale. |
| SharedFrame.UnpackPack | src/cia402/compressed_mit.rs:112-126 | The two packed words give back all five components, each at its place of bits. |
| SharedFrame.QuantiseIsNear | src/cia402/compressed_mit.rs:103-126 | Every component arrives within one quantisation step of the clamped input. |
| SharedFrame.PackSharedFrame | src/cia402/compressed_mit.rs:130-139 | The payload is the concatenation of the lanes of the paired targets and mappings. |
| SharedFrame.RpdoEntries | src/cia402/compressed_mit.rs:142-154 | The entries are own objects in the own lane and filler elsewhere. |
| SharedFrame.HostTpdoCobId | src/meow_motor/pdo.rs:135-144 | A host TPDO identifier exists exactly for a valid host and TPDO1 to TPDO4, and its low seven bits and its function code give the two back. |
| SharedFrame.CompressedMitRpdo1Recipe | src/meow_motor/pdo.rs:147-179 | Succeeds exactly for 1 to 8 motors, a slot among them and a valid host; the recipe is the valid lane mapping of RPDO1 under COB-ID 0x180 plus host. |
| SharedFrame.ModeRpdo2Recipe | src/meow_motor/pdo.rs:182-205 | The same for the one-byte mode lanes of RPDO2 under COB-ID 0x280 plus host. |
| SharedFrame.LanesFitExactly | src/canopen/rpdo_config.rs:30-59 | The lane mapping is a valid recipe if and only if there are 1 to 8 lanes. |
| SharedFrame.LaneIsolation | src/cia402/compressed_mit.rs:130-154 | A device walking its mapping over any lanes takes exactly what its own objects take from its own lane. |
| SharedFrame.MotorReceivesItsTarget | src/cia402/compressed_mit.rs:103-154 | A CiA 402 motor that accepted its write list takes, through 0x2004:02 and :03, exactly its own 64 bits from the shared frame sent under its COB-ID and nothing under any other identifier; they give back its five quantised components. |
| SharedFrame.MeowReceivesItsTarget | src/meow_motor/pdo.rs:135-179 | A Meow motor that accepted the list of its recipe takes, through 0x4103:02 and :03, its own 64 bits from the frame sent under 0x180 plus host and nothing under any other identifier. |
| SharedFrame.MotorReceivesItsMode | src/meow_motor/pdo.rs:182-205 | A device that accepted the write list of its mode lane takes exactly its own byte, as 0x4401, from the frame sent under 0x280 plus host and nothing under any other identifier. |
| StatusStream.Subscriber.constructor | src/cia402/subscribe.rs:121-132 | Capacity is at least one; the stream is open and empty. |
| StatusStream.Subscriber.PushState | src/cia402/subscribe.rs:135-161 | One push with the receiver active in between leaves exactly the specified channel and answer. |
| StatusStream.Subscriber.Receive | src/cia402/subscribe.rs:86-93 | The receiver takes items in order and may close. |
| StatusStream.PushExactly | src/cia402/subscribe.rs:135-161 | What one push adds to the stream and counts as lost, by the room the receiver leaves at its two moments, and that the subscriber is given up exactly if the receiver is found gone. |
| StatusStream.PushAccounts | src/cia402/subscribe.rs:135-161 | One push keeps the loss account exact whatever the receiver does; with two free slots, or one if nothing was lost, all losses are reported and the sample is in the stream; a refused push means closed. |
| StatusStream.RunAccounts | src/cia402/subscribe.rs:119-161 | Over any run, replacing each loss report by that many gaps and appending the pending ones reproduces the pushed sequence, in order, with no empty report and the queue within capacity. |
| SettingsPlan.BuildDeviceSettingsPlan | src/cia402/device_can.rs:178-200 | A plan exists exactly for 1 Mbit/s nominal, one of four data rates and matching shapes; it is the specified write list, and changed holds if and only if snapshot and target differ. |
| SettingsPlan.BuildObject2001Plan | src/cia402/device_can.rs:202-253 | Writes the differing fields, node ID last, then one save. |
| SettingsPlan.BuildObject2100Plan | src/cia402/device_can.rs:255-305 | Rewrites every field of the shape, node ID last. |
| SettingsPlan.EncodesExactly | src/cia402/device_can.rs:202-305 | Which object and sub-index each setting is written to, byte by byte; the save request is the four letters of "save". |
| SettingsRecovery.DecodeEncode | src/cia402/device_can.rs:202-305 | Every planned SDO write means to the device what the plan meant. |
| SettingsRecovery.StoredNeverMixed | src/cia402/device_can.rs:202-253 | After any sequence of interrupted attempts, each sending some of the planned SDO writes, and of power cycles the saved copy of a 0x2001 device is the old one or the target. |
| SettingsRecovery.NodeIdChangesLast | src/cia402/device_can.rs:202-305 | After any number of the planned SDO writes the node ID has changed only if all other fields equal the target. |
| SettingsRecovery.InterruptedAttemptsConverge | src/cia402/device_can.rs:202-305 | Any sequence of interrupted attempts followed by all SDO writes of one more plan leaves working and saved copy equal to the target. |
| MeowSettings.BuildSettingsUpdatePlan | src/meow_motor/settings.rs:91-120 | A plan exists exactly for current and target settings with a node ID of 1 to 127, one of five nominal and one of four data rates; it is the specified list with one save to 0x1010:04. |
| MeowSettings.Node.ApplyCanSettings | src/meow_motor/manager.rs:824-905 | Success means both copies hold the target and reports whether a field differed; a failure leaves the saved copy old or target and the working copy part way, node ID last. Left undisturbed the call succeeds if and only if the settings read and the target are usable. |
| ModeCommand.ClearWritesTrigger | src/meow_motor/manager.rs:589-641 | N clear-error attempts fire the change-triggered object N times, or N-1 if it already held 0xFF. |
| ModeCommand.WithoutRearmOnce | src/meow_motor/commands.rs:164-184 | Without the re-arming write, repeated 0xFF fires at most once. |
| ModeCommand.Motor.TriggerClearError | src/meow_motor/manager.rs:624-641 | What was delivered is a prefix of the re-arm, if asked for, and 0xFF; a completed trigger delivered both. |
| ModeCommand.Motor.ClearError | src/meow_motor/manager.rs:576-611 | However it ends, the writes delivered are those of some number of whole attempts and less than one more, and the device saw exactly that many triggers, or all but the first if it already held 0xFF. Left undisturbed it does not fail, and it is confirmed by the first of the attempts after which the motor shows no error, if there is one. |
| ModeCommand.WriterWaitsJustLongEnough | src/meow_motor/manager.rs:1623-1632 | In every reachable state whoever takes the free lock and waits may start its write if and only if 5 ms have passed since the last one ended: the delay is never too short and never longer than needed. |
| ModeCommand.WritesNeverOverlap | src/meow_motor/manager.rs:1354-1372 | Under any interleaving and cancellation of writers two writes to 0x4401 never overlap and start at least 5 ms after the previous one ended. |
| FencedCommands.Motor.WaitForLogicAfter | src/meow_motor/manager.rs:1150-1189 | A confirmation rests on a TPDO2 received since, in the session and NMT revision of the token, which still holds; a node that keeps showing one mode confirms that one and no other. |
| FencedCommands.Motor.SetModeSdo | src/meow_motor/manager.rs:498-541 | Ok: from before the first write to the return the call stayed in one session, identity and NMT revision, online, Initialized, Operational and fresh at both ends, target and command were written in that order, and a TPDO2 of that session and revision, received at or after command completion, displayed the mode. Every planned write followed a fence that found the node so. Err after a write, in the session of the call: the last write attempted is 0x4401 := 0. What was written is a prefix of the plan and at most that write. While the node only keeps showing one mode, the call succeeds if and only if the node is identified, online, Initialized and Operational and the mode is that one. |
| FencedCommands.Motor.SetTargetSdo | src/meow_motor/manager.rs:645-675 | Ok: the target fields and nothing else were written, fenced in the same way. Anything written was written after the mode at hand was observed. Err after a write, in the session of the call: the last write attempted is 0x4401 := 0. While the node only keeps showing one mode, it succeeds under the same condition. |
| SessionEntry.MotorEntry.HandleInboundHeartbeat | src/cia402/discovery.rs:116-165 | One heartbeat leaves exactly the specified entry, field by field, and asks for the automatic identification exactly of an Unknown node that has not had its own. |
| SessionEntry.MotorEntry.MarkAttempted | src/cia402/discovery.rs:190-198 | The started identification uses up the automatic one of its session, and of no other. |
| SessionEntry.MotorEntry.ReceiveTpdo | src/cia402/tpdo_listener.rs:186-212 | A TPDO makes the node online; a decoded TPDO2 advances its revision and says whether the drive shows no fault. |
| SessionEntry.MotorEntry.InvalidateForNewDeviceSession | src/cia402/discovery.rs:202-215 | A new session keeps nothing learned about the old one. |
| SessionEntry.MotorEntry.CheckLiveness | src/cia402/discovery.rs:362-396 | The offline edge starts a new session and forgets the NMT state. |
| SessionEntry.MotorEntry.BeginDeviceCanConfigRead | src/cia402/device_can.rs:104-119 | Caches the identity, and makes an Unknown node Identified, exactly in the expected session. |
| SessionEntry.MotorEntry.FinishDeviceCanConfigRead | src/cia402/device_can.rs:122-133 | Caches the configuration exactly in the expected session. |
| SessionEntry.MotorEntry.EnterInitialize | src/cia402/initialize.rs:301-322 | Enters Initializing exactly from a known identity and another lifecycle, and pins session and identity. |
| SessionEntry.MotorEntry.CommitInitialize | src/cia402/initialize.rs:513-533 | Commits if and only if epoch, identity and NMT revision are those pinned, the node is Initializing, online and Operational and a heartbeat was seen and is fresh; only the lifecycle changes. |
| SessionEntry.MotorEntry.RollBack | src/cia402/initialize.rs:685-699 | Leaves Initializing for Identified or Unknown. |
| SessionEntry.MotorEntry.CacheAppliedSettings | src/cia402/manager.rs:1377-1402 | Caches the target exactly in the pinned session, NMT revision and NMT state of an online node. |
| FaultClearing.ClearHeartbeatFault | src/cia402/initialize.rs:411-511 | The result names the first attempt that clears or fails, counted from 1, or says that none of the attempts did and whether the last read back the sticky signature. |
| FaultClearing.DecisionIsUnique | src/cia402/initialize.rs:411-511 | What the attempts meet determines the result. |
| FaultClearing.LoopIsProtocol | src/cia402/initialize.rs:411-511 | The Attempt and Converge steps of the session protocol, whatever else happens to the node between them, end in Commit, rollback or Exhausted, sticky or not, exactly as the loop decides and after as many attempts. |
| SessionSafety.NextKeeps | src/cia402/discovery.rs:88-282 | One step of anything keeps every invariant of the protocol. |
| SessionSafety.ReachableSafe | src/cia402/manager.rs:379-503 | Every reachable state satisfies every invariant, short of 2^64 changes. |
| SessionTheorems.LifecycleInvariant | src/cia402/discovery.rs:121-150 | Over all interleavings: identity present if and only if lifecycle is not Unknown; Initialized implies online, Operational and identity. |
| ProvenanceTheorems.CachedDataIsCurrent | src/cia402/discovery.rs:88-282 | On every run, at every moment: behind a cached identity are a step where an identification began, a later one where the device answered with it and a later one that stored it; behind a configuration that is not Pending are such steps of its reading, or the request, the pinning and the commit of a settings transaction; and no session has started since the identification began, or since the pinning. |
| ProvenanceTheorems.ReaderHasHistory | src/cia402/discovery.rs:229-256 | Whatever an identification holds at any moment, the device answered so at a step after it began, and its session is not younger than that beginning. |
| ProvenanceTheorems.TransactionHasHistory | src/cia402/manager.rs:639-684 | Every settings transaction goes back to its request, whose target it carries, and to the step that pinned its session. |
| SessionTheorems.AutomaticIdentifyOncePerSession | src/cia402/discovery.rs:152-199 | On every run: of two automatic identifications the later was asked for by a heartbeat after the earlier had started, in a later session than the one the earlier was asked for in. |
| SessionTheorems.OperationsExclusive | src/cia402/manager.rs:1633-1655 | Exclusive operations on one node never overlap. |
| SessionTheorems.SettingsAreAbaFree | src/cia402/manager.rs:639-684 | On every interleaving: a settings transaction that returns Ok saw no Boot-Up, offline edge or NMT change between pinning its session and caching. |
| SessionTheorems.AtMostOneLateWrite | src/cia402/manager.rs:1483-1525 | On every run: once a Boot-Up, offline edge or NMT change has happened since a transaction pinned its session, the transaction issues at most one further write, whether or not that write succeeds. |
| SessionTheorems.ChangesCounted | src/cia402/discovery.rs:118-132 | The session and NMT counts grow exactly at a Boot-Up, an NMT change or an offline edge. |
| SessionTheorems.SessionsCounted | src/cia402/discovery.rs:202-215 | The session count grows, by one, exactly at a Boot-Up or an offline edge. |
| InitializationTheorems.HistoryExists | src/cia402/manager.rs:379-503 | Every running call of initialize goes back to its start, the entry and fence of its pass and its last attempt, and its record holds what was found there. |
| InitializationTheorems.ResetOncePerCall | src/cia402/manager.rs:416-503 | On every run no two steps of one call of initialize send a communication reset, successful or not. |
| InitializationTheorems.ResetOnlyWhenSticky | src/cia402/initialize.rs:411-511 | On every run a reset is sent only after a pass that made all the configured attempts, at least one, the last of which read fault bit clear and code 0x8130. |
| InitializationTheorems.InitializedOnlyInContext | src/cia402/initialize.rs:301-537 | On every run a node becomes Initialized only by a call that entered its pass, then took its fence, then made its last attempt with clean readings, then saw a TPDO2 newer than them without a fault: one session from the entry on, the same identity, and no Boot-Up, offline edge or NMT change from the fence to the commit. |
| RecoveryTheorems.ResetOnlyForAdmittedDevice | src/cia402/manager.rs:434-452 | On every run a reset is sent only after a check that found the session and the physical device of the admission of the call, with no other session in between, and as the next thing the call does. |
| RecoveryTheorems.RecoveryNeedsBootUp | src/cia402/manager.rs:434-473 | On every run: if a call that sent a reset makes the node Initialized, a Boot-Up was heard after the check before the reset, when the wait ended a new session had begun and the node was online in Pre-Operational, and the pass that commits was entered after that. |
| RecoveryTheorems.BootUpBetweenExactly | src/cia402/manager.rs:1561-1577 | Two snapshots of the Boot-Up counter differ if and only if a Boot-Up was heard between them. |
| RecoveryTheorems.BootUpMayPrecedeReset | src/cia402/manager.rs:434-473 | Whenever a reset is about to be sent, a Boot-Up heard before the sending lets the call go on without one after it. |
| RecoveryTheorems.InitializedDeviceIsAdmitted | src/cia402/manager.rs:1020-1060 | On every run a call of initialize turns only that physical device Initialized which it found at its admission, with or without a reset on the way. |
| InitializationTheorems.NeverStuckInitializing | src/cia402/initialize.rs:669-700 | While the lifecycle is Initializing an initialization is running that will commit or roll back. |
| InitializationTheorems.DropRollsBack | src/cia402/initialize.rs:685-699 | An initialization dropped at any point does not leave Initializing behind. |
| DecisionTheorems.OpeningDecides | src/cia402/initialize.rs:301-322 | A call is let in exactly for an identified node, enters a pass exactly if none is under way, and waits until the node is Operational. |
| DecisionTheorems.FenceTakenExactly | src/cia402/initialize.rs:366-391 | On every run a call takes its fence if and only if the entry shows session and identity of the entry of the pass, Initializing, online and Operational. |
| DecisionTheorems.AttemptDecides | src/cia402/initialize.rs:411-480 | Which reading of one attempt leads to the wait for TPDO2, to a further attempt or to the end of the attempts, and what ends that wait. |
| DecisionTheorems.CommitExactly | src/cia402/initialize.rs:221-272 | On every run a call about to commit makes the node Initialized if and only if the heartbeat is fresh and the entry shows session and identity of the entry of the pass, NMT revision of the fence, Initializing, online, Operational and a heartbeat; otherwise it gives the pass up. |
| DecisionTheorems.ResetDecidedExactly | src/cia402/initialize.rs:481-511 | On every run a pass that used up its attempts turns to the reset if and only if the same context holds and its last attempt read fault bit clear and code 0x8130. |
| DecisionTheorems.UnwindDecides | src/cia402/initialize.rs:685-699 | A given-up pass takes a node still Initializing back to Identified or Unknown; only a first pass goes on to the reset. |
| DecisionTheorems.ResetCheckedExactly | src/cia402/manager.rs:434-452 | On every run the check before the reset lets it be sent if and only if session and device are those of the admission. |
| DecisionTheorems.RestartTakenExactly | src/cia402/manager.rs:1561-1577 | On every run a call waiting after its reset goes on if and only if another Boot-Up is counted than at the check, the session is not that of the admission, and the node is online in Pre-Operational. |
| DecisionTheorems.CaptureExactly | src/cia402/manager.rs:639-655 | A settings transaction pins its session if and only if the node is online, has sent a heartbeat and is in Pre-Operational or Stopped. |
| DecisionTheorems.FenceHoldsExactly | src/cia402/manager.rs:1483-1525 | On every run a transaction goes on past a fence, before, between or after its writes, if and only if that still holds and session, NMT revision and NMT state are those of the pinning. |
| DecisionTheorems.CachedExactly | src/cia402/manager.rs:1377-1402 | On every run a transaction that comes to cache has issued exactly the writes asked for, and caches the target asked for if and only if the node is online in the session and NMT state of the pinning. |
| DecisionTheorems.IdentityStoredExactly | src/cia402/device_can.rs:104-119 | On every run an identity read from the device is stored if and only if the session is still the one its identification began in, or was asked for in, and after a reset only from the admitted device. |
| DecisionTheorems.ConfigStoredExactly | src/cia402/device_can.rs:122-133 | On every run the same for the configuration. |
| ProgressTheorems.InitializeCompletes | src/cia402/manager.rs:379-503 | From every reachable state at rest with an identified node, an initialization of which fewer attempts fail than configured, and whose next one is clean and converges, ends Initialized, in the same session with the same identity and configuration. |
| ProgressTheorems.RecoveryCompletes | src/cia402/manager.rs:416-503 | From every such state, one whose attempts all fail, the last with code 0x8130, ends Initialized in the next session if the device restarts after the reset, answers as the same device and clears its fault in the second pass. |
| ProgressTheorems.IdentifyCompletes | src/cia402/manager.rs:358-378 | From every reachable state at rest a requested identification that is answered caches both answers and makes an Unknown node Identified. |
| ProgressTheorems.AutomaticCompletes | src/cia402/discovery.rs:116-199 | From every reachable state at rest a Boot-Up leads to an identification in the new session, which uses up its automatic one. |
| ProgressTheorems.SettingsComplete | src/cia402/manager.rs:639-684 | From every reachable state at rest with a configurable node, a transaction makes its writes and caches its target; nothing else changes. |

## Left out

- Transport, SDO client, tokio tasks and channels, `ArcSwap` snapshots and event broadcasts: they appear only as atomic steps, a bounded queue and undetermined answers.
- f32 and f64 rounding, NaN and infinities, including the finiteness checks that exist only because of them.
- Finite tables and one-branch facts: COB-ID and NMT encodings, mode codes, known-device lookup, role node-ID ranges, error strings, events and log text.
- Reading 0x4001 from a device (src/meow_motor/calibration.rs:340-400): only the seven words once read are decoded.
- `set_mode` of the CiA 402 driver: its confirmation has no freshness fence, so none is claimed.
- `freeze_pdo_profile` racing with `initialize`: the source declares it a caller error.
- `forget_offline`, `initialize_all`, position presets and target writes of the CiA 402 driver: in the session model they are operations that only hold the node's exclusive slot.
- `initialize`, `identify` and `apply_device_settings` are steps of a state machine on values rather than methods, so that every interleaving and cancellation can be stated; the entry they act on is a class, and the fault-clear loop is a method of its own.
- Several nodes at once: the session model follows one node; the shared state between nodes is the set of busy node IDs.
- The read-only preliminaries of a settings transaction (identity check, snapshot, probe of the target node ID) are one step that may fail; only the session check that ends them is kept.
- SessionTheorems.SettingsAreAbaFree: speaks of runs of at most 2^64 - 1 steps, since the u64 revisions may wrap after more.
- FencedCommands.Motor.SetModeSdo: the session, NMT and TPDO2 counters do not wrap here, and the identity changes only by being dropped with its session, because the node's operation guard is held.
- VelocityTracking.HistoryTracksTruth: assumes device time that never runs backwards and frames less than 2^32 microseconds apart, beyond which the u32 timestamp cannot tell a gap.
- PositionAccumulator.SegmentAccumulates: assumes fewer than 2^64 segments; the u64 wraps in the model itself.
- SharedFrame.LaneIsolation: devices read byte-aligned entries, which all lane mappings here are.
- SettingsRecovery.StoredNeverMixed: claims nothing for write-through 0x2100 devices, whose saved copy follows every single write.
- Payload limits other than the CAN-FD 64 bytes, bus timing, inhibit and event timers as behaviour: they are values written and read back.
