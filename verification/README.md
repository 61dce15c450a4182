# A model of geiger-rs in Dafny

The repository estimates order-flow toxicity (VPIN) from trades, publishes the estimates to subscribers, and
calibrates the estimator on recorded tapes. This project models its stateful core and proves what that core
is for:

- **The streaming estimator** (`VolumeClock`, `RollingWindows`, `Bvc`, `SplitMix`, `Bootstrap`, `VpinEngine`).
  Trades are cut into volume buckets, each bucket is classified with the deviation of the price changes
  before it, and VPIN, its rank and a bootstrap interval are kept over bounded windows. `VpinBatch` defines
  every reading as a function of the whole tape, with nothing carried from bucket to bucket; the `Engine`
  class is proved to produce exactly those readings, one trade at a time. `VpinProperties` says what the
  readings mean: when they exist, what bounds them, how two confidence levels compare over a whole run.
  `ReadingValues` states the value of every field of a reading without the functions that compute it.
  `Rounding` repeats the [0, 1] bound with every operation rounded.
- **Publishing and catching up** (`StreamProtocol`, `Feed`, `Worker`, `Server`). `StreamProtocol` is the
  interleaving of one publisher (record, then send) with any number of connections (subscribe, then read the
  snapshot, then forward); the order of each pair is a parameter, so that what depends on it can be proved.
  `Worker` and `Server` are the two loops in the form the program gives them.
- **The subscriber** (`Client`): the reconnecting loop with its staleness clock, as a machine over timed runs.
- **End to end** (`EndToEnd`): from the trades a worker is fed to the state a client shows.
- **Codecs** (`Fixed8`, `TapeFormat`, `Capture`, `Csv`): decimal strings to fixed point, the capture file, and
  the calibrator's CSV.
- **The calibrator** (`Judging`, `Calibration`, `Sweep`): its second pass over the tape, proved in step with
  the estimator, and the sweep over a grid of configurations.
- **Rank within similar activity** (`IntensityCdf`).

The mutable classes and loops of the program are classes and loops here, each proved against a specification
function; what the program promises is then proved about that function. Prices, volumes and scores are exact
reals. The normal distribution and the square root are supplied from outside (`Numerics.Maths`); of the first
only its range is used and of the second only its sign, where a result does not name another property. Times are natural numbers of nanoseconds.

## Where code and comments disagree

The model follows the code.

- `VpinReading::vpin` is documented as missing during warm-up only. A bucket whose preceding window of price
  changes is flat has none either, however late it comes (`VpinProperties.VpinPresentExactly`, `VpinProperties.VpinCanVanish`).
- The calibrator's two-proportion test takes a zero standard error to mean equal accuracies. It also means 0
  against 1, and then the test calls the two indistinguishable (`Sweep.NoErrorExactly`).
- `parse_fixed8` accepts a plus sign in front of the fraction, so "1.+5" is read as 1.05
  (`Fixed8.FractionPlusAccepted`); `Fixed8.ParsesExactly` says which texts are accepted at all.
- The CSV quoting leaves a lone carriage return unquoted, and RFC 4180 does not allow that
  (`Csv.RowRoundTrip` is exact about it). The comment's "RFC 4126" is RFC 4180.
- The backoff comment says a long outage settles at the maximum delay; it settles at the smaller of the
  maximum and 2^20 times the base (`Client.DelaysGrowToPlateau`).
- `ToxicityState::Stale` is documented as "no reading or heartbeat in time", and `Connecting` as "nothing heard
  since the connect". In the code any text frame counts as heard, and a malformed one or an error message leaves
  the state as it is. Either meaning holds in every run exactly as long as every text frame decodes to a reading
  or a heartbeat; one further kind of frame, of whatever content, makes it false under every configuration
  (`Client.StaleAsDocumentedExactly`, `Client.ConnectingAsDocumentedExactly`). What the code does keep in every
  run is `Client.StalenessBound`, about text of any kind, and `Client.StaleOnlyWhenSilent`.
- `VpinReading::vpin_cdf` is documented as missing "under the same warmup condition as `vpin`". Ranks warm up
  c - 1 classified buckets longer (`VpinProperties.RankPresentExactly`, `VpinProperties.FirstVpinUnranked`).

## Model

| member | source | states |
|---|---|---|
| VolumeClock.GreedyIsGreedy | crates/vpin-engine/src/bucket.rs:72-110 | The cut of any tape is a partition into consecutive non-empty segments: each reaches the target with its last trade and not before, and the open remainder is below it at every prefix |
| VolumeClock.GreedyUnique | crates/vpin-engine/src/bucket.rs:72-110 | Only one partition of a tape has that property |
| VolumeClock.BucketShape | crates/vpin-engine/src/bucket.rs:91-107 | Bucket ids are 0, 1, 2, …; every realized volume is at least the target; what is open is below it |
| VolumeClock.VolumeConserved | crates/vpin-engine/src/bucket.rs:72-110 | Closed volumes plus the open remainder are the tape's total volume |
| VolumeClock.TradesConserved | crates/vpin-engine/src/bucket.rs:72-110 | Every trade is in exactly one closed bucket or in the open remainder |
| VolumeClock.DeltasTelescope | crates/vpin-engine/src/bucket.rs:82-108 | Price changes add up to the last close minus the price of the first trade |
| VolumeClock.VolumeBucketer.New | crates/vpin-engine/src/bucket.rs:44-58 | Succeeds iff the target volume is positive; otherwise reports it |
| VolumeClock.VolumeBucketer.Push | crates/vpin-engine/src/bucket.rs:72-110 | Every field stays a function of the trades pushed; the result is the bucket the whole-tape cut gains, if it gains one |
| ReadingValues.BucketExactly | crates/vpin-engine/src/bucket.rs:91-108 | Every field of a bucket, from its segment of the greedy partition and the one before |
| RollingWindows.VarianceZeroIffConstant | crates/vpin-engine/src/vpin.rs:47-62 | The sample variance is never negative and is zero iff the window is constant |
| RollingWindows.MeanExactly | crates/vpin-engine/src/vpin.rs:56 | The mean times the count is the sum |
| RollingWindows.VarianceByPairs | crates/vpin-engine/src/vpin.rs:56-59 | Twice n (n - 1) times the sample variance is the sum of squared differences over all ordered pairs |
| RollingWindows.RollingSigma.New | crates/vpin-engine/src/vpin.rs:25-38 | Succeeds iff the window is at least 2 |
| RollingWindows.RollingSigma.Push | crates/vpin-engine/src/vpin.rs:47-62 | The deviation of exactly the last w changes of the whole history; none until there are w |
| RollingWindows.EmpiricalCdf.New | crates/vpin-engine/src/vpin.rs:77-88 | Succeeds iff the window is at least 2 |
| RollingWindows.EmpiricalCdf.Push | crates/vpin-engine/src/vpin.rs:94-106 | The rank times c is how many of the last c values of the history do not exceed the newest; none until there are c |
| RollingWindows.RankExactly | crates/vpin-engine/src/vpin.rs:94-106 | A history has rank r iff it has c values and r times c is that number |
| RollingWindows.RankRange | crates/vpin-engine/src/vpin.rs:90-106 | A rank is in (0, 1] |
| Bvc.ImbalanceDefined | crates/vpin-engine/src/bvc.rs:48-61 | A bucket can be classified iff sigma is positive |
| Bvc.ClassifyExactly | crates/vpin-engine/src/bvc.rs:48-61 | There is a split iff sigma is positive: the buyers get Phi of the price change over sigma of the volume, the sellers the rest |
| Bvc.ImbalanceWithinVolume | crates/vpin-engine/src/bvc.rs:57-61 | Both sides of a split are non-negative and exhaust the volume, so the imbalance never exceeds it |
| SplitMix.SplitMix64.NextU64 | crates/vpin-engine/src/vpin.rs:130-136 | Draw number k is the output map of the state after k steps from the seed |
| SplitMix.SplitMix64.NextIndex | crates/vpin-engine/src/vpin.rs:145-147 | The index is that draw modulo n, always below n |
| SplitMix.KnownOutputs | crates/vpin-engine/src/vpin.rs:130-136 | The first three outputs from seed 0 are those published for SplitMix64 |
| SplitMix.MixIsPermutation | crates/vpin-engine/src/vpin.rs:130-136 | The output map has a two-sided inverse on 64-bit words |
| SplitMix.MixInjective | crates/vpin-engine/src/vpin.rs:130-136 | Equal outputs come from equal states |
| SplitMix.AdvanceClosedForm | crates/vpin-engine/src/vpin.rs:131 | After k draws the state is the seed plus k times the increment modulo 2^64 |
| SplitMix.NoOutputRepeats | crates/vpin-engine/src/vpin.rs:130-136 | No output repeats within 2^64 draws |
| SplitMix.DistinctSeedsDistinctOutputs | crates/vpin-engine/src/vpin.rs:125-136 | Two different seeds differ at every draw |
| Percentiles.SortSorts | crates/vpin-engine/src/vpin.rs:184 | The samples are put in ascending order and none is lost or invented |
| Percentiles.RankInRange | crates/vpin-engine/src/vpin.rs:200-202 | The rank interpolated at lies within the sequence for every p in [0, 1] |
| Percentiles.AtRankBetween | crates/vpin-engine/src/vpin.rs:201-208 | Both indices are in range and the value lies between the two ranks it interpolates |
| Percentiles.AtRankMonotone | crates/vpin-engine/src/vpin.rs:200-208 | Interpolation is monotone in the rank, within a segment and across segments |
| Percentiles.PercentileMonotone | crates/vpin-engine/src/vpin.rs:195-209 | Percentiles of a sorted sequence are monotone in p over all of [0, 1] |
| Percentiles.PercentileWithin | crates/vpin-engine/src/vpin.rs:195-209 | No percentile leaves the range of the elements |
| Percentiles.PercentileExactly | crates/vpin-engine/src/vpin.rs:195-209 | At rank lo + f the percentile is element lo, or the point f of the way to the next |
| Bootstrap.BootstrapCi | crates/vpin-engine/src/vpin.rs:161-190 | The loop computes the interval of the resamples that start at the generator's current draw, and consumes samples · n draws |
| Bootstrap.ResampleExactly | crates/vpin-engine/src/vpin.rs:172-177 | Each slot of a resample is the one at the generator's next output modulo n |
| Bootstrap.SampleIs | crates/vpin-engine/src/vpin.rs:169-182 | Sample b is the ratio of the resample made of the b-th n draws |
| Bootstrap.RatioExactly | crates/vpin-engine/src/vpin.rs:387-391 | A ratio times the summed volumes is the summed imbalances |
| Bootstrap.IntervalTails | crates/vpin-engine/src/vpin.rs:184-189 | The interval runs from the (1 - level) / 2 to the (1 + level) / 2 percentile of the sorted samples |
| Bootstrap.MediantBound | crates/vpin-engine/src/vpin.rs:387-391 | A ratio of sums lies between the least and the greatest bucket ratio of the window |
| Bootstrap.SamplesWithin | crates/vpin-engine/src/vpin.rs:169-182 | So does every bootstrap resample |
| Bootstrap.IntervalWithin | crates/vpin-engine/src/vpin.rs:184-189 | So do both interval ends, and low is at most high |
| Bootstrap.IntervalsNest | crates/vpin-engine/src/vpin.rs:186-189 | From the same draws the higher level's interval contains the lower level's |
| VpinEngine.Engine.New | crates/vpin-engine/src/vpin.rs:299-330 | Succeeds iff the configuration is valid; otherwise reports the first check that fails |
| VpinEngine.ConfigErrorExactly | crates/vpin-engine/src/vpin.rs:299-330 | What a valid configuration is, and the error for each way not to be one, in the order of the checks |
| VpinEngine.Engine.UpdateVpin | crates/vpin-engine/src/vpin.rs:374-392 | The window holds the last n classified buckets of the whole history; VPIN times its volumes is its imbalances |
| VpinEngine.Engine.RankAndInterval | crates/vpin-engine/src/vpin.rs:347-357 | Rank and interval of a new VPIN are those of the whole history, the rank being the share of the last c VPINs not above it; without one neither state moves |
| VpinEngine.Engine.PushTrade | crates/vpin-engine/src/vpin.rs:335-368 | Streaming refines batch: after every trade the readings given so far are exactly the whole-tape readings; a VPIN is the ratio of the window and its rank the share of the last c |
| VpinBatch.BucketFacts | crates/vpin-engine/src/vpin.rs:335-368 | What one closing trade adds to buckets, classifications and readings of a tape, and that it changes no earlier one |
| ReadingValues.SlotExactly | crates/vpin-engine/src/vpin.rs:110-113 | The slot of bucket k: none before w buckets or without a positive deviation of the w changes before; else its volume and how far apart the two sides of its split are |
| ReadingValues.VpinExactly | crates/vpin-engine/src/vpin.rs:374-392 | On every tape reading k has VPIN v iff bucket k has a slot, n buckets up to it have one, and v times the volumes of the last n slots is their imbalances |
| ReadingValues.RankOnTapeExactly | crates/vpin-engine/src/vpin.rs:347 | On every tape the rank of a reading is the share of the last c VPINs so far that do not exceed its own, once there are c, and none without a VPIN or a window |
| ReadingValues.IntervalOnTapeExactly | crates/vpin-engine/src/vpin.rs:349-355 | On every tape the interval of a reading is that of the last n slots, resampled from where the draws of the earlier VPINs ended |
| ReadingValues.ReadingCarriesBucket | crates/vpin-engine/src/vpin.rs:359-362 | On every tape reading k carries the id, close time and trade count of bucket k |
| VpinProperties.SigmaBefore | crates/vpin-engine/src/vpin.rs:338-345 | Sigma for bucket k is the deviation of exactly the w changes before it, never its own |
| VpinProperties.ClassifiedExactly | crates/vpin-engine/src/vpin.rs:374-376 | Bucket k is classified iff w buckets precede it and their changes are not all equal |
| VpinProperties.VpinCount | crates/vpin-engine/src/vpin.rs:383-391 | There are max(0, s - n + 1) VPIN values for s classified buckets, whatever lies between them |
| VpinProperties.WarmupEndsExactly | crates/vpin-engine/src/vpin.rs:335-392 | Without a flat window the first VPIN and interval come with bucket w+n-1 and the first rank with w+n+c-2, and none is missing afterwards |
| VpinProperties.VpinPresentExactly | crates/vpin-engine/src/vpin.rs:374-392 | Reading k has a VPIN iff k ≥ w, the w changes before it are not all equal and bucket k is at least the n-th classified one |
| VpinProperties.RankPresentExactly | crates/vpin-engine/src/vpin.rs:343-392 | On any tape reading k has a rank iff ranking is configured, it has a VPIN and bucket k is at least the (n + c - 1)-th classified one |
| VpinProperties.VpinCanVanish | crates/vpin-engine/src/vpin.rs:374-376 | A tape and a configuration under which a reading has a VPIN and the next one does not |
| VpinProperties.FirstVpinUnranked | crates/vpin-engine/src/vpin.rs:222-225 | A tape and a configuration under which a reading has a VPIN but no rank |
| VpinProperties.ReadingsOnlyGrow | crates/vpin-engine/src/vpin.rs:335-368 | No reading ever changes when trades follow it |
| VpinProperties.ReadingWithinWindowRatios | crates/vpin-engine/src/vpin.rs:387-391 | VPIN and both interval ends lie between the least and greatest bucket ratio of the current window, however far volumes overshoot |
| VpinProperties.ReadingsWithinUnit | crates/vpin-engine/src/vpin.rs:368-373 | On every tape VPIN, rank and interval are in [0, 1], the interval is in order and comes with every VPIN, and reading k carries bucket id k |
| VpinProperties.IntervalsNestOverRuns | crates/vpin-engine/src/vpin.rs:161-209 | Over a whole tape, two configurations that differ in confidence level give identical readings but for the interval, and the wider contains the narrower at each one |
| VpinProperties.TwinEngines | crates/vpin-engine/src/vpin.rs:349-355 | Two such engines hold the same window and generator state, which is the seed plus readings · samples · n increments modulo 2^64 |
| Rounding.RoundedImbalanceBound | crates/vpin-engine/src/bvc.rs:57-61 | Rounded at every step, a bucket's imbalance is still between 0 and its volume |
| Rounding.RoundedSumsOrdered | crates/vpin-engine/src/vpin.rs:387-390 | However rounded, the sum of imbalances never overtakes the sum of volumes |
| Rounding.RoundedVpinBound | crates/vpin-engine/src/vpin.rs:368-391 | Under every monotone rounding that fixes 0, 1 and its own results and is odd, VPIN is defined and in [0, 1] |
| Rounding.ExactVpin | crates/vpin-engine/src/vpin.rs:387-391 | With no rounding it is the VPIN of the exact model |
| Rounding.SlotOfClassified | crates/vpin-engine/src/bvc.rs:57-61 | The window's buckets carry the imbalance classification gives them |
| IntensityCdf.IntensityAdjustedCdf.New | crates/vpin-engine/src/intensity.rs:32-43 | Succeeds iff the window is at least 4 |
| IntensityCdf.IntensityAdjustedCdf.Push | crates/vpin-engine/src/intensity.rs:48-77 | The cohort rank of the last `window` entries of the history; none until there are that many |
| IntensityCdf.MedianIsOrderStatistic | crates/vpin-engine/src/intensity.rs:80-84 | The value picked is the one and only upper median, said by counting |
| IntensityCdf.CohortRankExactly | crates/vpin-engine/src/intensity.rs:58-76 | The rank is the share of the entries on the newest one's side of the upper median whose VPIN does not exceed its own |
| IntensityCdf.CohortRankRange | crates/vpin-engine/src/intensity.rs:66-76 | The busy cohort holds at least half the window rounded up; the scored cohort is never empty; the rank is in (0, 1] |
| IntensityCdf.RankIgnoresOrder | crates/vpin-engine/src/intensity.rs:48-77 | Reordering older entries leaves the rank unchanged |
| IntensityCdf.RankIgnoresScale | crates/vpin-engine/src/intensity.rs:48-77 | Strictly increasing relabelling of VPINs or trade counts leaves the rank unchanged |
| StreamProtocol.StepKeepsOk | services/toxicity-service/src/server.rs:156-199 | Every step keeps: sent lags recorded by at most one, each connection's events lead without a jump from its subscription point to its position, the snapshot is no older than that point |
| StreamProtocol.RunsStayOk | services/toxicity-service/src/server.rs:156-199 | So every reachable state has that |
| StreamProtocol.PointsAreKept | services/toxicity-service/src/server.rs:156-165 | In every run a connection's starting point is what had been sent when it subscribed, and its snapshot what had been recorded when it read it |
| StreamProtocol.CatchUpHasNoHole | services/toxicity-service/src/server.rs:156-189 | In every interleaving a connection that never lagged got all messages from its subscription point on, in order and once each; nothing between snapshot and position is missing; only the snapshot can be a repeat |
| StreamProtocol.SnapshotHoldsRecorder | services/toxicity-service/src/server.rs:165-169 | In every run a snapshot being written is still the last recorded message, and no step then possible records another |
| StreamProtocol.SnapshotFirstLoses | services/toxicity-service/src/server.rs:157-164 | Reading the snapshot before subscribing admits a run that loses a message |
| StreamProtocol.SendFirstLoses | services/toxicity-service/src/worker.rs:13-22 | Sending before recording admits a run that loses a message |
| StreamProtocol.OnlyTheServiceOrderIsSafe | services/toxicity-service/src/worker.rs:13-22 | Of the four orders, no message is ever lost iff the order is record-then-send and subscribe-then-read |
| StreamProtocol.ReadingsPassed | services/toxicity-service/src/server.rs:174-187 | The readings a stretch of events passes are the forwarded ones plus at most the messages reported missed |
| StreamProtocol.ForwardedIdsIncrease | services/toxicity-service/src/server.rs:174-187 | Forwarded readings have strictly increasing ids and lag reports cover every skip |
| Feed.QuotedExactly | services/toxicity-service/src/worker.rs:75-78 | In exact arithmetic a price or quantity quoted as a decimal reaches the estimator as that decimal, with the exchange time; the program divides doubles, which rounds |
| Feed.PublishesEveryReading | services/toxicity-service/src/worker.rs:55-92 | What a worker publishes contains exactly the readings of its tape and its heartbeats, one each and in order |
| Feed.PublishedFields | services/toxicity-service/src/worker.rs:77-87 | The i-th reading published has the tape's i-th reading's id, close time, trade count, VPIN and rank, each in its place |
| Feed.PublishedIdsConsecutive | services/toxicity-service/src/worker.rs:77-88 | Published readings carry ids 0, 1, 2, … and are as many as the tape has readings |
| Worker.StreamEntry.Publish | services/toxicity-service/src/worker.rs:17-22 | The message is recorded and then sent, in that order and with nothing in between; it is the last message and the newest in the channel |
| Worker.TraceIsARun | services/toxicity-service/src/worker.rs:13-22 | The actions of a worker's publications are a run of the protocol in the order that loses nothing |
| Worker.OnHeartbeat | services/toxicity-service/src/worker.rs:57-61 | A heartbeat leaves channel, last message and counters in agreement with everything fed so far |
| Worker.OnTrade | services/toxicity-service/src/worker.rs:62-90 | So does a trade: its reading is published iff it closed a bucket, and counted |
| Worker.EntryExactly | services/toxicity-service/src/worker.rs:55-92 | The channel, the last message, both counters and the times of the last trade and heartbeat after any inbox |
| Worker.Run | services/toxicity-service/src/worker.rs:31-94 | Over a worker's life the channel is what the inbox determines, every message was recorded before it was sent, the last message is the channel's last, the trade and reading counters are exact, and the worker is dead at the end; only an invalid configuration fails |
| Server.Receiver.Recv | services/toxicity-service/src/server.rs:174-186 | A receive yields the next message while it is retained, else the exact number overwritten |
| Server.ForwardNext | services/toxicity-service/src/server.rs:174-187 | A receive is made iff the channel holds more; the message received is sent, a lag sends nothing and ends nothing, and only a broken socket fails |
| Server.Turn | services/toxicity-service/src/server.rs:172-198 | One turn of the loop leads to the position and the frames due after one more poll, and stops for a close, a read error or a broken socket only |
| Server.Forward | services/toxicity-service/src/server.rs:172-199 | The loop stops after the first poll that gives a reason and not before; position, wire and end are those the polls up to there determine |
| Server.HandleConnection | services/toxicity-service/src/server.rs:138-200 | The same from the opening frame on, with the errors for a missing request, bad JSON, an unknown stream (named in the one frame sent) and a broken socket |
| Server.DueTexts | services/toxicity-service/src/server.rs:165-198 | What is due are the snapshot, then the messages forwarded in channel order, and an answer to each ping |
| Server.AtMostOneUnsent | services/toxicity-service/src/server.rs:172-198 | Only a broken socket leaves anything due unsent, and then one frame |
| Server.FinishesExactly | services/toxicity-service/src/server.rs:174-198 | A session finishes iff a close from either side is the first terminal event and the socket carried everything due until then |
| Server.OtherEndsExactly | services/toxicity-service/src/server.rs:172-198 | A session ends in a socket error iff a read error is the first terminal event or the socket broke, and stays open iff there is no terminal event and all was carried |
| Server.LagFreeMessages | services/toxicity-service/src/server.rs:172-187 | Without lag the forwarded messages are a contiguous stretch of the channel |
| Client.DelaysGrowToPlateau | crates/backoff/src/lib.rs:65-72 | Delays never shrink or exceed the maximum and stop growing at 2^20 times the base |
| Client.DelaysDouble | crates/backoff/src/lib.rs:65-72 | The first delay is the base and each one doubles the one before, up to the maximum and the twentieth |
| Client.WaitsForBackoff | crates/toxicity-client-rs/src/lib.rs:92-129 | In every run the wait after giving up is the delay for the failures in a row, which a handshake sets back to none |
| Client.RedialsAfterWait | crates/toxicity-client-rs/src/lib.rs:116 | It redials no earlier than that wait is over |
| Client.ExponentialBackoff.NextDelay | crates/backoff/src/lib.rs:68-72 | The delay of the current attempt; attempts count up |
| Client.ToxicityClient.HandleMessage | crates/toxicity-client-rs/src/lib.rs:185-228 | The state after a decoded message |
| Client.ToxicityClient.Handle | crates/toxicity-client-rs/src/lib.rs:100-173 | One arm of the loop makes exactly the machine's step |
| Client.ToxicityClient.On | crates/toxicity-client-rs/src/lib.rs:92-173 | So the object is always where its run leads |
| Client.RunsKeepTiming | crates/toxicity-client-rs/src/lib.rs:141-159 | In every run the clock field is the time of the latest text frame or connect, and a state other than Stale has a next check in time |
| Client.ChecksOnSchedule | crates/toxicity-client-rs/src/lib.rs:141-156 | The checks of a session happen at the connect plus whole multiples of max(stale_after/2, 1 ms), and none is ever overdue |
| Client.LastHeardExactly | crates/toxicity-client-rs/src/lib.rs:149-161 | The clock reads the latest text frame or connect |
| Client.StalenessBound | crates/toxicity-client-rs/src/lib.rs:141-156 | At every moment of every session a state other than Stale is at most stale_after + max(stale_after/2, 1 ms) older than the last text frame or the connect |
| Client.StalenessBoundReached | crates/toxicity-client-rs/src/lib.rs:141-156 | Under every configuration some run reaches that bound exactly |
| Client.OtherTextStretchesBound | crates/toxicity-client-rs/src/lib.rs:153-183 | Under every configuration a frame that is malformed or an error, of whatever content, lets a score stand past that bound with neither a reading nor a heartbeat |
| Client.StaleAsDocumentedExactly | crates/toxicity-client-rs/src/state.rs:28-32 | For each frame content: over all runs whose texts are readings, heartbeats or that content, a state other than Stale always has a reading, a heartbeat or the connect behind it within the bound, iff that content decodes to a reading or a heartbeat |
| Client.StaleOnlyWhenSilent | crates/toxicity-client-rs/src/lib.rs:153-156 | In every run Stale within a session means no reading or heartbeat for longer than the threshold |
| Client.ConnectingAsDocumentedExactly | crates/toxicity-client-rs/src/state.rs:11-14 | For each frame content: over all runs whose texts are readings, heartbeats or that content, Connecting in a session always means no text since the connect, iff that content decodes to a reading or a heartbeat |
| Client.StateExplained | crates/toxicity-client-rs/src/lib.rs:92-229 | After every run the state is the verdict of the latest deciding event (reading, silent check, connect, failure, redial), turned to Warming{0} by a later heartbeat if it was Stale or Connecting; nothing else changes it |
| Client.LiveExactly | crates/toxicity-client-rs/src/lib.rs:190-205 | Live{v, c, t} is shown iff the latest deciding event is a reading that carried exactly v, c and t |
| Client.WarmingExactly | crates/toxicity-client-rs/src/lib.rs:190-221 | Warming{t} is shown iff the latest deciding event is a reading without a score over t trades, or t is 0 and a heartbeat came since another deciding event |
| Client.BoundariesShowNoScore | crates/toxicity-client-rs/src/lib.rs:100-116 | No score survives a connect, a failure or a redial |
| EndToEnd.SessionShows | crates/toxicity-client-rs/src/lib.rs:176-229 | Without a silent check the state is a function of the session's decoded messages alone |
| EndToEnd.ShowsLatestOfSession | crates/toxicity-client-rs/src/lib.rs:190-221 | A session shows its latest reading, whatever came after it |
| EndToEnd.WireHasLatest | services/toxicity-service/src/server.rs:156-189 | The wire has the latest reading from its earliest message on, even when the snapshot runs ahead of the first forwarded messages |
| EndToEnd.LatestOnWire | services/toxicity-service/src/server.rs:165-187 | On any connection at any moment the latest reading on the wire is the latest one forwarded, or else the snapshot |
| EndToEnd.PastTheLag | services/toxicity-service/src/server.rs:174-187 | A reading at or past the point where the last lag landed has been forwarded, and is the latest |
| EndToEnd.ClientShowsLatest | services/toxicity-service/src/server.rs:156-189 | In every run an up-to-date client shows the latest reading ever published if that is no older than the first message it got or, after lags, the first past the last lag; without a lag it otherwise shows no score |
| EndToEnd.ClientShowsLatestSeen | services/toxicity-service/src/server.rs:156-189 | At any moment, lagged or not, a session that was never silent shows exactly that reading |
| EndToEnd.RunSeesLatestExactly | services/toxicity-service/src/server.rs:165-187 | At any moment of any run, lagged or not, the latest reading seen on a connection is the latest published iff that was forwarded, or was the snapshot and no reading was forwarded |
| EndToEnd.LagLeavesOlderReading | services/toxicity-service/src/server.rs:179-184 | A run after which, because of a lag, an older reading stands although everything sent was received |
| EndToEnd.SessionOfARun | services/toxicity-service/src/server.rs:156-199 | The session loop, given what a connection of any protocol run finds ready, puts on the wire exactly what that connection delivers and ends up where it is |
| EndToEnd.LatestPublished | services/toxicity-service/src/worker.rs:77-88 | The latest reading published has the fields of the last reading of the tape; there is none iff the tape has none |
| EndToEnd.TradesToScreen | services/toxicity-service/src/worker.rs:62-90 | Such a client shows Live with the VPIN, rank and trade count of the last whole-tape reading, or Warming with its trade count if it has no VPIN |
| EndToEnd.WireIdsIncrease | services/toxicity-service/src/server.rs:172-187 | At any moment of any run of a worker's stream, the readings forwarded on a connection have strictly increasing ids and lag reports cover every skip |
| TapeFormat.HeaderAccepted | crates/trade-ingest/src/capture.rs:46-66 | A header is accepted iff it is the one this build writes |
| TapeFormat.HeaderSpells | crates/trade-ingest/src/capture.rs:31-44 | The header spells GTRC and version 1 |
| TapeFormat.EncodedFields | crates/trade-ingest/src/capture.rs:114-123 | Where each field sits in the record |
| TapeFormat.LittleEndian | crates/trade-ingest/src/capture.rs:117-123 | Each byte of a number weighs 256 times the one before it |
| TapeFormat.Discriminants | crates/trade-ingest/src/capture.rs:216-236 | The bytes that stand for exchanges and sides |
| TapeFormat.DecodeEncode | crates/trade-ingest/src/capture.rs:114-213 | Every trade decodes from its own record |
| TapeFormat.EncodeDecode | crates/trade-ingest/src/capture.rs:193-236 | A block is accepted iff both discriminants are in range, and then it re-encodes to the same bytes |
| TapeFormat.DecodeErrorExactly | crates/trade-ingest/src/capture.rs:193-201 | A refused block is refused for its exchange first, then for its side, naming the byte |
| TapeFormat.ItemsAreBlocks | crates/trade-ingest/src/capture.rs:166-213 | Each item depends on its own 58 bytes alone; a cut tail adds one error |
| TapeFormat.TapeRoundTrip | crates/trade-ingest/src/capture.rs:166-213 | k whole records and 0 < r < 58 bytes read as k trades, one error and then the end, for good |
| Capture.CopyInto | crates/trade-ingest/src/capture.rs:116-123 | Bytes are copied to their place and the rest of the buffer is untouched |
| Capture.FillBlock | crates/trade-ingest/src/capture.rs:114-123 | The buffer ends up as the record of the trade |
| Capture.TradeRecorder.Create | crates/trade-ingest/src/capture.rs:83-110 | Succeeds iff the file is empty or starts with this build's header; an empty file gets it; a refused file is not touched |
| Capture.TradeRecorder.Record | crates/trade-ingest/src/capture.rs:114-125 | File and buffer together grow by exactly the record |
| Capture.TradeRecorder.Flush | crates/trade-ingest/src/capture.rs:132-134 | Everything buffered is in the file |
| Capture.RecordSession | tools/capture/src/main.rs:86-196 | A session appends exactly its trades, whenever it flushes |
| Capture.TradeReader.Open | crates/trade-ingest/src/capture.rs:147-160 | Succeeds iff the header is right, and reads on after it |
| Capture.OpenErrorExactly | crates/trade-ingest/src/capture.rs:46-66 | A file is refused for the first thing wrong: no room for a header, the magic, the version |
| Capture.TradeReader.Next | crates/trade-ingest/src/capture.rs:166-213 | The loop over short, interrupted and failing reads takes exactly the bytes it must: without a failure the item is the next one of the bytes; a failing read yields an error and what it had taken of the record is gone |
| Capture.FramingSurvivesExactly | crates/trade-ingest/src/capture.rs:170-189 | After a failing read a tape of whole records reads on as before iff no byte of that record had been taken; otherwise it ends on a cut record it does not have |
| Capture.TradeReader.ReadAll | crates/trade-ingest/src/capture.rs:163-214 | Through any pattern of short and interrupted reads the items are those of the bytes |
| Capture.SessionsReadBack | crates/trade-ingest/src/capture.rs:83-213 | The file that sessions leave behind opens, and its items are all their trades in order |
| Capture.RecordAndReadBack | crates/trade-ingest/src/capture.rs:83-213 | Recording any sessions, with any flushing, and reading back through any pattern of short and interrupted reads yields every trade in order |
| Fixed8.DenotedParses | crates/trade-ingest/src/types.rs:59-100 | A text that denotes a decimal parses to that decimal times 10^8, or fails iff that exceeds 64 bits |
| Fixed8.UnscaledExactly | crates/trade-ingest/src/types.rs:65-99 | Divided by 10^8, the scaled number is the decimal again |
| Fixed8.AcceptedDenotes | crates/trade-ingest/src/types.rs:59-100 | Every accepted text denotes a decimal, and the result is its value |
| Fixed8.ParsesExactly | crates/trade-ingest/src/types.rs:59-100 | On every string: the result is v iff the trimmed text denotes a decimal of value v / 10^8 and v fits 64 bits |
| Fixed8.TrimUnique | crates/trade-ingest/src/types.rs:60 | Trimming leaves the one part between white space that has none at either end |
| Fixed8.TrimExists | crates/trade-ingest/src/types.rs:60 | There always is such a part |
| Fixed8.NegativeRejected | crates/trade-ingest/src/types.rs:61-63 | A text whose first character past white space is a minus sign is rejected |
| Fixed8.FractionPlusAccepted | crates/trade-ingest/src/types.rs:91-95 | "1.+5" is read like "1.05" |
| Fixed8.RoundTrip | crates/trade-ingest/src/types.rs:153-166 | Every 64-bit number printed with eight decimals parses back to itself |
| Csv.EscapedFieldParses | tools/calibrate/src/main.rs:537-543 | An escaped field that is quoted or has no carriage return reads back as itself |
| Csv.QuotedOnlyIfNeeded | tools/calibrate/src/main.rs:537-543 | Text is quoted iff it has a comma, a quote or a line feed |
| Csv.RowRoundTrip | tools/calibrate/src/main.rs:537-596 | A printed row reads back, by section 2 of RFC 4180, as its columns and the error text iff the text was quoted or has no carriage return; otherwise it is no record |
| Judging.CutIsGreedy | tools/calibrate/src/main.rs:288-295 | The calibrator's buckets are the estimator's |
| Judging.SidesExhaustVolume | tools/calibrate/src/main.rs:289-300 | Bought and sold volume of a bucket add up to its volume, so the true share is always defined |
| Judging.JudgesWhatIsClassified | tools/calibrate/src/main.rs:295-309 | The judged buckets are exactly those the estimator classifies, in order and with the same call |
| Judging.JudgeExactly | tools/calibrate/src/main.rs:296-299 | A bucket is judged iff sigma is positive: called is Phi of its standardised price change, actual its taker-bought share |
| Judging.TapeJudgementExactly | tools/calibrate/src/main.rs:289-305 | On every tape each classified bucket has its judgement, in its place, with those two shares |
| Judging.JudgedShares | tools/calibrate/src/main.rs:298-299 | Called and true shares are in [0, 1] when no trade has negative volume |
| Calibration.BvcAccuracyStats | tools/calibrate/src/main.rs:275-329 | The loop's statistics are those of the judged buckets of the whole tape, with the bucketer's and the window's errors |
| Calibration.TallyExactly | tools/calibrate/src/main.rs:301-328 | Accuracy times the number compared is how many calls fell on the same side of one half as the truth; mean error times it is the sum of the distances; without any there is neither |
| Calibration.TapeTallyWithinUnit | tools/calibrate/src/main.rs:314-328 | Accuracy and mean error exist iff anything was compared, and are in [0, 1] |
| Calibration.SummaryOrdered | tools/calibrate/src/main.rs:428-441 | The mean lies between attained extremes; the deviation is never negative and is zero iff all values are equal |
| Calibration.SummaryExactly | tools/calibrate/src/main.rs:428-441 | The mean times the count is the sum; the deviation is the root of the sample variance, zero for one value |
| Calibration.MeanIntervalIsMeanGap | tools/calibrate/src/main.rs:443-449 | The interval is the mean gap between consecutive closes unless the last close is before the first |
| Calibration.MeanIntervalOtherwise | tools/calibrate/src/main.rs:443-449 | There is no interval for fewer than two closes, and none counted for a last close before the first |
| Calibration.CalibrateOne | tools/calibrate/src/main.rs:209-257 | The loop's statistics are those of the whole-tape readings; fails iff the configuration is invalid |
| Calibration.StatsExactly | tools/calibrate/src/main.rs:239-256 | The statistics are one bucket per closed bucket, the VPINs counted and summarised, and the mean interval of the closes |
| ReadingValues.VpinsInReadings | tools/calibrate/src/main.rs:229-237 | The VPIN values collected are all of the tape's, in order |
| Calibration.Lockstep | tools/calibrate/src/main.rs:217-312 | On every tape the two passes agree bucket by bucket, and readings past warm-up number max(0, compared - n + 1) for every VPIN window n |
| Sweep.GridInOrder | tools/calibrate/src/main.rs:382-401 | Every combination has its row at its place in the nested order |
| Sweep.GridHasNoOthers | tools/calibrate/src/main.rs:382-401 | Every row is that of some combination, at its place |
| Sweep.RowExactly | tools/calibrate/src/main.rs:386-400 | A row carries its combination, and its statistics describe the tape under it |
| Sweep.RowFailsExactly | tools/calibrate/src/main.rs:386-393 | A row fails iff its configuration is invalid, the judging pass reporting first |
| Sweep.RowsInStep | tools/calibrate/src/main.rs:382-393 | Rows that differ in the VPIN window share accuracy and bucket count, and their reading counts follow from it |
| Sweep.BestIsLastMaximum | tools/calibrate/src/main.rs:403-409 | The best row is the last one of greatest accuracy; there is none iff no row has an accuracy |
| Sweep.ComparedExactly | tools/calibrate/src/main.rs:411-422 | Comparing sets a row's p-value against the best row's accuracy and count, and nothing else |
| Sweep.NoErrorExactly | tools/calibrate/src/main.rs:344-359 | The standard error vanishes iff both accuracies are 0 or 1; the only unequal pair is 0 against 1, and its p-value is 1 |
| Sweep.PValueExactly | tools/calibrate/src/main.rs:344-359 | No p-value with fewer than 30 compared buckets on a side or without an accuracy; else 1 without an error, else twice the normal tail beyond the gap in standard errors |
| Sweep.EqualAccuraciesAlike | tools/calibrate/src/main.rs:344-359 | Equal accuracies have p-value 1 when Phi(0) is one half |
| Sweep.WiderGapSmallerP | tools/calibrate/src/main.rs:357-358 | The further apart in standard errors, the smaller the p-value |
| Sweep.FillWindows | tools/calibrate/src/main.rs:388-400 | The inner loop yields one row per VPIN window from a single judging pass |
| Sweep.FillGrid | tools/calibrate/src/main.rs:382-401 | The nested loops yield the whole grid |
| Sweep.RunSweep | tools/calibrate/src/main.rs:372-426 | Every row but the best is compared with the best, which is left as it is; without a best none is touched |

## Left out

- IEEE-754 arithmetic: values are exact reals, so NaN, infinities and rounding error are not modelled. `Rounding` covers the VPIN bound; percentile results need exact arithmetic. A statistic that is NaN in the program is `None` here, and `buy_fraction`'s checks for finite operands always pass.
- Feed.QuotedExactly: holds in exact arithmetic; dividing a raw price by 10^8 in doubles rounds, so 0.1 does not arrive exactly.
- The numerics of `erf` and the square root: only the range of the one and the sign of the other are used, and for p-values that Phi is monotone with Phi(0) one half where a row says so. A degenerate double-precision variance that is tiny instead of zero is therefore outside the model.
- Counter widths: trade counts (`u32`), bucket ids and health counters (`u64`) do not wrap; 64-bit words of the generator, the tape and the fixed-point parser do.
- The debug assertions that prices and volumes are positive: no result needs them, except that shares lie in [0, 1] when volumes are not negative.
- tokio's broadcast, watch, interval and locks: only their documented behaviour is used. A channel's capacity is taken as given; the rounding up inside tokio is not part of this model.
- Handlers of the client take no time and its timer fires when due; a client blocked in a write could notice silence later. Writing a pong that fails is the same event as a session error.
- Server.HandleConnection: the WebSocket handshake, authentication and JSON are not modelled; a stream is looked up by its normalised key, and exchange and symbol, constant per worker, are left out of readings.
- Forwarded messages and the snapshot are taken to be encoded and decoded faithfully by JSON.
- ExponentialBackoff: overflow of the attempt counter and saturation of `Duration` are not modelled.
- Resuming a tape whose tail was cut in mid-record: recording checks only the header, so the read-back results hold for sessions that ended with whole records.
- `Symbol` is sixteen opaque bytes; `Price` and `Qty` are their raw numbers.
- Capture.RecordSession: flushes happen every so many trades instead of every so many seconds, and a failing write is not modelled.
- Fixed8.ParsesExactly: lengths are counted in characters, where the program counts bytes; a fraction with other than ASCII characters is rejected either way.
- Which text a float prints as in CSV and JSON, the printed table, command-line parsing and the other output formats.
- Exchange adapters, configuration loading and hot-reload, health and metrics endpoints, the Python binding.
