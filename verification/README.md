# MeshCore dispatcher, wire codec and deduplication: a verified model

MeshCore nodes exchange small packets over LoRa. This project models, in Dafny, the parts of the Rust
implementation that decide what is sent, when, and what is recognised again, and proves what they promise:

- **The dispatcher** (`DispatcherSpec`, `DispatcherLoop`, with `TxQueue`, `RxDelay`, `DutyCycle`,
  `ListenBeforeTalk`, `ScanQueue`). The event loop is a function on states, driven by a script with one record
  per iteration: the requests drained, every clock reading, the radio's answers and the future that wins the
  select. A statement about every script is a statement about every run. A ledger records what happened.
  The class `DispatcherLoop.Dispatcher` is the loop itself, over its queue, bucket and buffer objects; each
  method is proved equal to its function.
- **Whole-run theorems** (`Conservation`, `ScriptLedger`, `Losses`, `Priorities`, `DeliveryOrder`, `StrongerFirst`,
  `AirtimeBound`, `Scheduling`, `Starvation`): conservation of requests and frames, losses exactly when a queue is full,
  no request sent before a due one of smaller priority, nothing early or out of order, stronger copies first, exact
  counters, the airtime bound of any window, useful wakeups, and exactly when the budget stands still.
- **The delay arithmetic** (`Pow10`, `PowerLaw`, `RxDelay`, `Airtime`): the loops compute what they should, the
  approximation of 10^x turns sums into products and integers into powers of ten, and stronger, shorter copies never
  wait longer.
- **Wire, group text and deduplication** (`Packet`, `Crypto`, `Utf8`, `GrpTxt`, `Dedup`): a two-way codec, the
  encrypt-then-MAC stack over an abstract cipher, and a ring that refines a bounded FIFO set.

Modelling choices: integers carry their widths (`Machine`), with wrap-around, truncation and saturation written
out; counters wrap as in a release build. Floats are exact reals. Time is in milliseconds and does not run
backwards. The block cipher, the keyed hash, SHA-256 and the radio's airtime estimate are function parameters.

Five places where the code and its words differ, modelled as coded:

- A full receive-delay queue drops the packet, although the comment at
  `crates/meshcore-dispatch/src/dispatcher.rs:181` says it is delivered at once: `Losses.SecondFrameIsLost` is a run
  from the initial state that loses a frame, `Losses.FrameIsLostIff` the exact condition over every run.
- The transmission order is (priority, send_after), not the (scheduled_time, priority) of the design record
  `docs/decisions/0006-async-dispatcher-design.md`, and packets tied in both are not first-in first-out. Each removal
  moves the last entry of the vector into the hole; it keeps all ties in order exactly when that entry overtakes none
  of its own (`TxQueue.RemovalKeepsTiesIff`, `TxQueue.PopKeepsTiesIff`). Two ties behind a better packet leave reversed
  (`TxQueue.TwoTiesReversed`), three before one not yet eligible leave in order (`TxQueue.ThreeTiesInOrder`), and a
  refusal alone can reverse two (`Scheduling.RefusalReverses`, condition in `Scheduling.RefusalKeepsTiesIff`). A queue
  of nothing but eligible ties leaves as the first, then the others from the last to the second (`TxQueue.TiedDrain`).
- The budget does not always "refill over time": without a send it stands still exactly when it is full or the gate
  comes round so often that every gap earns less than a millisecond (`Starvation.BudgetStandsStillIff`), and from the
  initial state a run reaches a refused packet for which it does so for any time (`Starvation.StarvationFromStart`).
- Registering a packet against its own echo (`boards/rak4631/src/main.rs:430`) does not always last N insertions: a
  registration that finds its hash present renews nothing (`Dedup.RegistrationIsNotRenewed`); it lasts the full N
  exactly when nothing was inserted since the hash was (`Dedup.FullTermIff`).
- `pow10_approx` keeps the order of its inputs exactly when its constant for e is at least the 12-term sum at 1 and
  the constant's twentieth power at most the largest float (`Pow10.MonotoneIff`): the decimal constant qualifies, its
  nearest 32-bit float is too small (`Pow10.WhichEulerIsMonotone`).

## Model

| member | source | states |
|---|---|---|
| ScriptLedger.ScriptIsConserved | crates/meshcore-dispatch/src/dispatcher.rs:86-139 | After any run from the start, with each request taken as its own packet, its own priority and the time it was supplied plus its delay: supplied = queued + sent + failed + dropped as a multiset; parsed frames without a delay were all offered at once in order, the others = held + offered late + dropped; all counters are the true counts modulo 2^32; what is dropped, and when, is the subject of `Losses` |
| ScriptLedger.RunTakes | crates/meshcore-dispatch/src/dispatcher.rs:86-156 | The ledger takes exactly the requests the channel supplied and hears exactly the received frames that parse, in order |
| ScriptLedger.ReceivedTotal | crates/meshcore-dispatch/src/dispatcher.rs:159-168 | The two receive counters add up to the number of parsed frames modulo 2^32 |
| ScriptLedger.OfferedAtOnceIff | crates/meshcore-dispatch/src/dispatcher.rs:172-191 | In every run a parsed frame is offered as it arrives exactly when it is direct (route bits 2 or 3) or its raw delay is below the threshold |
| Conservation.DelayOfExact | crates/meshcore-dispatch/src/dispatcher.rs:172-187 | A frame is delayed exactly when its route bits are 0 or 1 and the raw delay for its SNR and the estimate for its length reaches the threshold; then by the whole milliseconds of it, or the maximum |
| Losses.RequestsAreDroppedIff | crates/meshcore-dispatch/src/dispatcher.rs:86-139 | In every iteration of every run the drain of the channel drops exactly the requests beyond the queue's free places, and the select drops its request exactly when as many earlier ones as the queue holds are unsent |
| Losses.FrameIsLostIff | crates/meshcore-dispatch/src/dispatcher.rs:177-190 | In every run a parsed frame is lost, neither held nor offered, exactly when it has a delay and as many earlier delayed frames as the queue holds are still held |
| Losses.RunFillings | crates/meshcore-dispatch/src/dispatcher.rs:86-139 | After every run the queue lengths are supplied - sent - failed - dropped, and delayed - offered late - dropped |
| Losses.NothingIsLostWhileFew | crates/meshcore-dispatch/src/dispatcher.rs:86-190 | A lost request or frame presupposes a full queue's worth of others; as long as no more than that were supplied or heard in all, nothing is lost |
| Losses.SecondFrameIsLost | crates/meshcore-dispatch/src/dispatcher.rs:177-190 | The failing run: with one place, the second of two weak frames is dropped and never offered |
| Conservation.EveryRunConserves | crates/meshcore-dispatch/src/dispatcher.rs:79-140 | Every conservation law, the timing of every transmission and late offer, the wire bytes sent and the counters hold after any run of any length |
| Conservation.IterateKeeps | crates/meshcore-dispatch/src/dispatcher.rs:86-139 | One iteration, whatever the environment does, keeps all of them |
| Conservation.PutBackRestores | crates/meshcore-dispatch/src/dispatcher.rs:208-212 | Putting a refused packet back never fails and leaves the queue's multiset unchanged |
| ScriptLedger.NothingIsSentEarly | crates/meshcore-dispatch/src/tx_queue.rs:46-89 | In every run, every transmission has a supplied request whose packet and priority it carries, and whose supply time plus delay is its due time and not after its start, through any number of put-backs; the bytes of a well-formed packet parse back to it |
| Priorities.NoBetterRequestWaits | crates/meshcore-dispatch/src/dispatcher.rs:194-247 | In every run, when an iteration attempts a request, no request that is due and neither sent nor dropped has a smaller priority, or the same and an earlier due time |
| ScriptLedger.NothingIsOfferedEarly | crates/meshcore-dispatch/src/dispatcher.rs:177-187 | In every run, a delayed packet stems from a received flood frame with that packet, RSSI and SNR, is due the delay after it that the formula prescribes for its SNR and airtime estimate, and is offered no sooner |
| ScriptLedger.HeldEntriesAreTimely | crates/meshcore-dispatch/src/dispatcher.rs:177-187 | In every run, every held packet is due within the maximum delay of its arrival, before the sentinel instant |
| AirtimeBound.AirtimeInWindow | crates/meshcore-dispatch/src/dispatcher.rs:194-247 | Over any window of any run, k successful sends within their estimates use at most 2*(max_budget + duty*(t2-t1)) + k ms |
| AirtimeBound.IterationIsCharged | crates/meshcore-dispatch/src/duty_cycle.rs:53-70 | One iteration refills once and pays at least half of what it sends; cap and rates never change |
| AirtimeBound.WindowCostsAtMost | crates/meshcore-dispatch/src/dispatcher.rs:219-239 | Over any window of any run the budget falls by no more than the airtime used |
| Scheduling.BestIsAttempted | crates/meshcore-dispatch/src/dispatcher.rs:194-247 | A turn attempts an eligible packet that no eligible one strictly beats, takes only that one from the queue, with at least half its estimate and the reserve in the bucket; a send costs exactly the milliseconds between its two clock readings, as far as the budget goes, a failed one nothing |
| Scheduling.NotAttempted | crates/meshcore-dispatch/src/dispatcher.rs:194-212 | A turn records no attempt exactly when no packet is eligible or the refilled budget is below half the estimate of the first best eligible one or below the reserve, even if another packet could be paid for; and then it loses nothing |
| Scheduling.RefusalKeepsTiesIff | crates/meshcore-dispatch/src/dispatcher.rs:208-212 | A refused packet moves behind all others and the last one into its place; distinct ties stay in order exactly when neither passes an entry with its own key |
| Scheduling.RefusalReverses | crates/meshcore-dispatch/src/dispatcher.rs:208-212 | The failing input: a refusal alone reverses two ties |
| Scheduling.DeliveryIsComplete | crates/meshcore-dispatch/src/dispatcher.rs:93-98 | The drain offers exactly the due packets, earliest first, and leaves none due |
| DeliveryOrder.OfferedInOrder | crates/meshcore-dispatch/src/dispatcher.rs:93-98 | Over any run all delayed packets are offered in the order of their due times, and nothing still held is due before anything already offered |
| Scheduling.TimerFindsWork | crates/meshcore-dispatch/src/dispatcher.rs:94-124 | After the timer fires, the next iteration finds a due delivery or an eligible transmission |
| DispatcherSpec.NextWake | crates/meshcore-dispatch/src/dispatcher.rs:276-286 | No wake time exactly for two empty queues, else the minimum of all due times |
| Scheduling.RefusalWakesAtOnce | crates/meshcore-dispatch/src/dispatcher.rs:104-138 | After a refusal the timer of the loop has already expired |
| Starvation.QuietWindow | crates/meshcore-dispatch/src/dispatcher.rs:194-247 | Over any window of any run with no successful send, the bucket is what refills at the gate times alone make of it |
| Starvation.BudgetStandsStillIff | crates/meshcore-dispatch/src/dispatcher.rs:194-197 | In such a window the budget does not change exactly when it is full or every gap between gate times earns less than 1 ms |
| Starvation.BudgetRecovers | crates/meshcore-dispatch/src/dispatcher.rs:194-197 | In such a window of n iterations it recovers at most what one refill would give, and at least that minus n-1 |
| Starvation.StarvingRun | crates/meshcore-dispatch/src/dispatcher.rs:79-140 | From every state in which one refused packet waits alone, nothing is held, less than 1 ms per ms is earned and the last refill was at the last clock reading, and for every k, a run of k iterations over k ms in which it stays refused and the budget does not grow |
| Starvation.StarvationFromStart | crates/meshcore-dispatch/src/dispatcher.rs:79-140 | Such a state is reached from the initial one, with half the budget missing, by sends within their estimates |
| Scheduling.CanAlwaysContinue | crates/meshcore-dispatch/src/dispatcher.rs:86-139 | From every state before the end of the clock some further iteration is possible, so the statements about runs are not empty |
| DispatcherLoop.Dispatcher.Run | crates/meshcore-dispatch/src/dispatcher.rs:79-140 | The loop over the real queues, bucket and buffer reaches the specified state for every script |
| DispatcherLoop.Dispatcher.Iterate | crates/meshcore-dispatch/src/dispatcher.rs:86-139 | One turn of the loop is the specified step |
| DispatcherLoop.Dispatcher.MaybeTransmit | crates/meshcore-dispatch/src/dispatcher.rs:194-247 | Refill, pop, gate, listen, serialise into the shared buffer, send and account as specified |
| DispatcherLoop.Dispatcher.HandleRx | crates/meshcore-dispatch/src/dispatcher.rs:143-191 | What is parsed and filed depends on the received frame alone, whatever the shared buffer held |
| DispatcherLoop.Dispatcher.OfferLate | crates/meshcore-dispatch/src/dispatcher.rs:94-98 | The pop loop ends and offers what the drain specifies, in its order |
| DispatcherLoop.Dispatcher.NextWakeTime | crates/meshcore-dispatch/src/dispatcher.rs:276-286 | The computed wake time is the specified minimum |
| ListenBeforeTalk.WaitForClearChannel | crates/meshcore-dispatch/src/dispatcher.rs:252-273 | For every configuration, a wait that ends stops at the first probe that is not busy or past the deadline, and reports which |
| ListenBeforeTalk.BackoffsBounded | crates/meshcore-dispatch/src/dispatcher.rs:252-273 | With a minimum backoff of at least 1 ms, at most ceil(timeout/min) backoffs for every radio and random sequence |
| ListenBeforeTalk.GivesUpLate | crates/meshcore-dispatch/src/dispatcher.rs:255-264 | The wait gives up exactly when every probe was busy, and only past the deadline |
| ListenBeforeTalk.EndsSoon | crates/meshcore-dispatch/src/dispatcher.rs:252-273 | With instant probes and exact timers a wait that ends is over before deadline + max(retry_min, retry_max), or 1 ms if both are zero |
| ListenBeforeTalk.EndsAtFirstStop | crates/meshcore-dispatch/src/dispatcher.rs:252-273 | A wait ends exactly when it has a first stop, and then it has one only |
| ListenBeforeTalk.EndsIff | crates/meshcore-dispatch/src/dispatcher.rs:252-273 | The wait ends in every environment exactly when the minimum backoff is at least 1 ms or the timeout is zero |
| ListenBeforeTalk.NextU32 | crates/meshcore-radio/src/rng.rs:13-21 | The random number is at least min, and below max unless it is min; above min it is the random word up to a multiple of the range |
| ListenBeforeTalk.EveryBackoffCanBeDrawn | crates/meshcore-radio/src/rng.rs:13-21 | Every number of the range can come out |
| ListenBeforeTalk.BackoffRange | crates/meshcore-dispatch/src/dispatcher.rs:265-271 | The possible backoffs are exactly the whole milliseconds from the configured minimum up to the maximum, or the minimum alone when there is no room |
| ListenBeforeTalk.ClockIsSum | crates/meshcore-dispatch/src/dispatcher.rs:252-273 | The answer to a probe is in after all latencies, earlier backoffs and timer delays, each counted once |
| ListenBeforeTalk.ClockIsBounded | crates/meshcore-dispatch/src/dispatcher.rs:252-273 | With instant probes and exact timers, i backoffs take at most i times the largest one |
| DutyCycle.New | crates/meshcore-dispatch/src/duty_cycle.rs:39-50 | The bucket starts full; rate times (1 + factor) is 1, and the cap is the whole part of window times rate |
| DutyCycle.RefillExact | crates/meshcore-dispatch/src/duty_cycle.rs:53-58 | A refill is min(max, budget + floor(duty*elapsed)) and changes nothing else but the refill time: neither saturation shows |
| DutyCycle.SpendAtLeastHalf | crates/meshcore-dispatch/src/duty_cycle.rs:62-70 | A gated send within its estimate costs at least half of its airtime less half a millisecond, although the deduction saturates |
| DutyCycle.SpendBoundIsTight | crates/meshcore-dispatch/src/duty_cycle.rs:62-70 | A single send can reach twice the budget plus one |
| DutyCycle.ScheduleIndependence | crates/meshcore-dispatch/src/duty_cycle.rs:53-58 | n refills leave at most what one over the same time leaves, and at least that minus n-1 |
| DutyCycle.UnchangedIff | crates/meshcore-dispatch/src/duty_cycle.rs:53-58 | A run of refills leaves the budget unchanged exactly when it is full or every gap earns less than 1 ms |
| DutyCycle.StarvedByTrickle | crates/meshcore-dispatch/src/duty_cycle.rs:53-65 | A refused packet stays refused through any such run |
| DutyCycle.Tracker.Refill | crates/meshcore-dispatch/src/duty_cycle.rs:53-58 | Updates the bucket in place as specified |
| ScanQueue.DrainSorts | crates/meshcore-dispatch/src/tx_queue.rs:70-89 | Repeated popping returns exactly the ready entries in order and leaves exactly the others, despite swap_remove |
| ScanQueue.PopConserves | crates/meshcore-dispatch/src/tx_queue.rs:70-89 | A pop takes an entry exactly when one is ready, an unbeaten one, and loses no other |
| TxQueue.TxDrainSorts | crates/meshcore-dispatch/src/tx_queue.rs:70-89 | Draining yields the eligible entries in (priority, send_after) order and leaves the ineligible multiset untouched |
| TxQueue.TxPopBest | crates/meshcore-dispatch/src/tx_queue.rs:66-89 | No entry is popped while a strictly better eligible one is queued; none is popped exactly when none is eligible |
| TxQueue.RemovalKeepsTiesIff | crates/meshcore-dispatch/src/tx_queue.rs:70-89 | In any queue of distinct entries, the swapping removal keeps all ties in order exactly when no entry between the hole and the last one has the last one's key |
| TxQueue.PutBackKeepsTiesIff | crates/meshcore-dispatch/src/tx_queue.rs:70-89 | Removal and putting back keep them exactly when, besides, no entry behind the removed one has its key |
| TxQueue.PopKeepsTiesIff | crates/meshcore-dispatch/src/tx_queue.rs:70-89 | A pop takes the first of its ties, and keeps the others in order exactly under the condition of the removal |
| TxQueue.DrainKeepsTies | crates/meshcore-dispatch/src/tx_queue.rs:70-89 | If that holds at every pop, ties leave in the order in which they stood |
| TxQueue.TwoTiesReversed | crates/meshcore-dispatch/src/tx_queue.rs:70-89 | The failing input: two ties behind a better packet leave reversed |
| TxQueue.ThreeTiesInOrder | crates/meshcore-dispatch/src/tx_queue.rs:70-89 | Three ties before a packet that is not eligible leave in order |
| TxQueue.ReversalsCancel | crates/meshcore-dispatch/src/tx_queue.rs:70-89 | Over a whole drain two reversals can cancel |
| TxQueue.TiedDrain | crates/meshcore-dispatch/src/tx_queue.rs:70-89 | In a queue that holds nothing but eligible ties, they leave as the first, then the others from the last to the second |
| TxQueue.TiesAreFifoIff | crates/meshcore-dispatch/src/tx_queue.rs:70-89 | In such a queue they leave in arrival order exactly when the entries behind the first read the same backwards |
| TxQueue.DistinctTiesAreFifoIff | crates/meshcore-dispatch/src/tx_queue.rs:70-89 | For distinct entries in such a queue: exactly when there are at most two |
| TxQueue.Queue.PopReady | crates/meshcore-dispatch/src/tx_queue.rs:70-89 | The scanning loop finds the first best eligible entry and removes it by swapping |
| TxQueue.Queue.Push | crates/meshcore-dispatch/src/tx_queue.rs:46-58 | Appends the request's packet at its priority, due its delay after now, or refuses on a full queue |
| RxDelay.RxDrainSorts | crates/meshcore-dispatch/src/rx_delay.rs:140-152 | The drain returns the due packets in deliver_at order and leaves none due, for entries below the sentinel |
| RxDelay.SentinelIsNeverDelivered | crates/meshcore-dispatch/src/rx_delay.rs:140-152 | From any queue only entries due before the sentinel instant are delivered; all others stay |
| RxDelay.Queue.PopReady | crates/meshcore-dispatch/src/rx_delay.rs:140-152 | The loop with best_time finds the first earliest due entry |
| ScanQueue.Earliest | crates/meshcore-dispatch/src/rx_delay.rs:157-159 | The minimum due time, none exactly for an empty queue |
| StrongerFirst.StrongerIsOfferedFirst | crates/meshcore-dispatch/src/rx_delay.rs:3-5 | In every run, when a frame is offered late, every frame that arrived no later, no weaker and with no longer an airtime estimate was offered at once, is due at the same instant, or was offered before it or dropped on a full queue, and is neither held nor offered afterwards |
| RxDelay.StrongerShorterFirst | crates/meshcore-dispatch/src/rx_delay.rs:3-5 | A copy with at least the SNR and at most the length is never delayed longer, over exact reals, as long as the longer copy's airtime estimate does not wrap |
| RxDelay.StrongerNeverWaitsLonger | crates/meshcore-dispatch/src/rx_delay.rs:83-98 | The same for any airtimes, across threshold, cap and both cut-offs |
| RxDelay.ImmediateIff | crates/meshcore-dispatch/src/rx_delay.rs:87-89 | Delivery is immediate exactly when the raw delay is below the threshold |
| RxDelay.DelayExact | crates/meshcore-dispatch/src/rx_delay.rs:83-98 | For every SNR, airtime and configuration a packet waits exactly the whole milliseconds of the raw delay, or the maximum, once the threshold is reached |
| PowerLaw.RawDelayAtSteps | crates/meshcore-dispatch/src/rx_delay.rs:83-85 | At 3.4 dB less 4k dB the raw delay is (10^k - 1) airtimes, for -8 <= k <= 8, up to 5e-5 of 10^k airtimes |
| PowerLaw.FourDecibels | crates/meshcore-dispatch/src/rx_delay.rs:83-85 | For every SNR inside the cut-offs, 4 dB less multiply raw delay plus airtime by ten, up to a relative 4e-6 |
| RxDelay.PositiveBelow | crates/meshcore-dispatch/src/rx_delay.rs:83-85 | The raw delay is positive exactly below 3.4 dB |
| RxDelay.StrongSignalsAreImmediate | crates/meshcore-dispatch/src/rx_delay.rs:83-98 | A flood packet of 3.4 dB or more is never held back, for any positive threshold |
| RxDelay.DelayCapped | crates/meshcore-dispatch/src/rx_delay.rs:91-95 | No delay exceeds the configured maximum |
| RxDelay.CalcRxDelay | crates/meshcore-dispatch/src/rx_delay.rs:83-98 | The code computes the specified delay |
| Airtime.EstimateMonotone | crates/meshcore-radio/src/sx1262.rs:182-205 | A longer frame never has a shorter estimate, as long as the longer one's does not wrap |
| Airtime.WrappedCanBeSmaller | crates/meshcore-radio/src/sx1262.rs:182-205 | The failing input where it does: 64 bytes get about a ninth of the estimate of an empty frame |
| Airtime.NoWrap | crates/meshcore-radio/src/sx1262.rs:182-205 | Under the overflow guard the 32-bit estimate is the exact one |
| Airtime.EstimateByBounds | crates/meshcore-radio/src/sx1262.rs:182-205 | Under the guard: just enough coded blocks for the payload bits, whole microseconds per symbol of 2^SF/bandwidth, and the total rounded to the nearest millisecond |
| Airtime.DocumentedFits | crates/meshcore-radio/src/sx1262.rs:50-71 | The guard holds for every spreading factor and coding rate the driver accepts, bandwidths from 1 kHz, and every frame |
| Pow10.ApproxMonotone | crates/meshcore-dispatch/src/rx_delay.rs:27-69 | The approximation keeps the order of its inputs across every range-reduction boundary and both cut-offs |
| Pow10.MonotoneIff | crates/meshcore-dispatch/src/rx_delay.rs:27-69 | For every positive constant: it does so exactly when the constant reaches the 12-term sum at 1 and its twentieth power stays within the largest float |
| Pow10.WhichEulerIsMonotone | crates/meshcore-dispatch/src/rx_delay.rs:56-58 | The decimal constant qualifies, its 32-bit rounding does not |
| PowerLaw.ApproxOfSum | crates/meshcore-dispatch/src/rx_delay.rs:27-69 | For all real arguments inside the cut-offs, the product of two values is the value of the sum up to a relative 2e-6 |
| PowerLaw.PowersOfTen | crates/meshcore-dispatch/src/rx_delay.rs:27-69 | At integers it is 10^k up to a relative 5e-5 inside the cut-offs, and zero or the largest float beyond them |
| PowerLaw.BetweenPowers | crates/meshcore-dispatch/src/rx_delay.rs:27-69 | Between two integers it lies between the two powers of ten, up to the same error |
| PowerLaw.Binomial | crates/meshcore-dispatch/src/rx_delay.rs:47-53 | The coefficients of a product of two exponential series are the terms at the sum of the arguments |
| Pow10.CutOffs | crates/meshcore-dispatch/src/rx_delay.rs:30-36 | It is zero exactly below the lower cut-off and the largest float exactly above the upper one |
| Pow10.SideOfOne | crates/meshcore-dispatch/src/rx_delay.rs:27-69 | It is 1 exactly at 0, above 1 for positive and below 1 for negative exponents |
| Pow10.TruncationError | crates/meshcore-dispatch/src/rx_delay.rs:47-53 | No longer Taylor sum exceeds the code's by 1/(12*12!) or more, or falls below it |
| Pow10.RangeReduce | crates/meshcore-dispatch/src/rx_delay.rs:38-45 | The integer part is the floor and the fraction lies in [0, 1) |
| Pow10.PowBySquaring | crates/meshcore-dispatch/src/rx_delay.rs:55-66 | The squaring loop computes base^exp for every exponent |
| Pow10.TaylorLoop | crates/meshcore-dispatch/src/rx_delay.rs:47-53 | The loop computes the degree-12 sum |
| Pow10.Pow10Approx | crates/meshcore-dispatch/src/rx_delay.rs:27-69 | The whole function computes the specified approximation |
| Packet.ReadRestores | crates/meshcore-core/src/packet.rs:147-249 | Reading back a written well-formed packet restores every wire field, whatever the target held |
| Packet.ReadIsSound | crates/meshcore-core/src/packet.rs:186-249 | Whatever is accepted is well formed and writes back to exactly the input |
| Packet.AcceptedIffSerialized | crates/meshcore-core/src/packet.rs:186-249 | The accepted byte strings are exactly the serialised well-formed packets |
| Packet.SerializeInjective | crates/meshcore-core/src/packet.rs:147-180 | Equal wire forms mean equal packets up to the local SNR |
| Packet.WireLenIsLength | crates/meshcore-core/src/packet.rs:132-180 | wire_len is the serialised length, at most 254 and so below the 255-byte buffer |
| Packet.Layout | crates/meshcore-core/src/packet.rs:147-180 | The position of every field: transport codes, low bytes first, in bytes 1 to 4 for routes 0 and 3 only, then path_len, path and payload |
| Packet.AcceptedIff | crates/meshcore-core/src/packet.rs:186-249 | Which byte strings are accepted, in numbers: path_len byte present and below 192, at most 64 bytes of path and 184 of payload |
| Packet.RejectedLeaves | crates/meshcore-core/src/packet.rs:186-249 | What a rejected input of two bytes or more leaves in every field |
| Packet.PacketCell.WriteTo | crates/meshcore-core/src/packet.rs:147-180 | Writes the wire form to the front of the buffer and nothing behind it |
| Packet.PacketCell.ReadFrom | crates/meshcore-core/src/packet.rs:186-249 | Verdict and final state for every input, including the partial state after a failure |
| Packet.SizeAndCountReadBack | crates/meshcore-core/src/packet.rs:93-127 | Hash size and count modulo 64 read back from the path_len byte; size 0 is stored as 1, and size 4 is the invalid one |
| Packet.ShiftsAndMasks | crates/meshcore-core/src/packet.rs:65-127 | Route, flood routes, routes with transport codes, payload type, hash size, hash count, path length and validity are the source's shifts and masks of the header and path_len bytes |
| Packet.PacketCell.SetPathHashCount | crates/meshcore-core/src/packet.rs:108-110 | Sets the count and preserves the size |
| Crypto.DecryptEncrypted | crates/meshcore-core/src/crypto.rs:26-88 | Decrypting an encryption gives the source padded with zeros to whole blocks, for every length |
| Crypto.PaddingIsMinimal | crates/meshcore-core/src/crypto.rs:30-45 | Less than one block of padding, all zeros, and none exactly for whole blocks |
| Crypto.EncryptedBlock | crates/meshcore-core/src/crypto.rs:26-54 | Every ciphertext block is the cipher on that block of the padded source under the first 16 bytes of the secret |
| Crypto.DecryptedBlock | crates/meshcore-core/src/crypto.rs:65-88 | Every whole block is decrypted under the same key, and an incomplete one is dropped |
| Crypto.SealedLayout | crates/meshcore-core/src/crypto.rs:113-131 | A sealed message is the first two bytes of the keyed hash of the ciphertext, then the ciphertext |
| Crypto.OpensIff | crates/meshcore-core/src/crypto.rs:137-157 | A message opens exactly when its first two bytes are those of the keyed hash of the rest, which is then decrypted |
| Crypto.WrongMacIsRefused | crates/meshcore-core/src/crypto.rs:149-153 | Of all two-byte MACs a sealed message opens with its own only |
| Crypto.OpenSealed | crates/meshcore-core/src/crypto.rs:113-157 | A sealed message opens, to its padded plaintext |
| Crypto.AesEncrypt | crates/meshcore-core/src/crypto.rs:26-54 | The block loop encrypts the padded source in place and touches nothing else |
| Crypto.AesDecrypt | crates/meshcore-core/src/crypto.rs:65-88 | The block loop decrypts whole blocks and ignores the rest |
| Crypto.EncryptThenMac | crates/meshcore-core/src/crypto.rs:113-131 | MAC and ciphertext end up at the front of the buffer |
| Crypto.MacThenDecrypt | crates/meshcore-core/src/crypto.rs:137-157 | Decrypts exactly when the MAC over the ciphertext matches |
| Utf8.ValidIffText | crates/meshcore-core/src/grp_txt.rs:71-73 | The valid strings are exactly the concatenations of one- to four-byte encodings of scalar values |
| Utf8.ValidWithZero | crates/meshcore-core/src/grp_txt.rs:66-70 | A trailing zero byte neither breaks nor repairs a UTF-8 string |
| GrpTxt.SurvivesTheStack | crates/meshcore-core/src/grp_txt.rs:48-138 | Encode, write, read into any packet, decode: same timestamp, type 0, and the message without trailing zeros, hence the message itself exactly when it has none |
| GrpTxt.DecodeEncoded | crates/meshcore-core/src/grp_txt.rs:48-138 | Decoding an encoded message succeeds exactly when it is UTF-8 |
| GrpTxt.DecodeSealed | crates/meshcore-core/src/grp_txt.rs:48-80 | Any sealed plaintext decodes to its timestamp, its type byte and its message without trailing zeros, exactly when that is UTF-8 |
| GrpTxt.TamperedMacIsRefused | crates/meshcore-core/src/grp_txt.rs:48-58 | With any other two bytes for its MAC an authentic payload decodes to nothing |
| GrpTxt.DecodedIsAuthentic | crates/meshcore-core/src/grp_txt.rs:48-58 | Whatever decodes has at least 19 bytes and the MAC of its ciphertext |
| GrpTxt.EncodedLayout | crates/meshcore-core/src/grp_txt.rs:118-138 | The packet has the flood route, type 5, version 0 and no path; its payload is the channel hash and the sealed plaintext |
| GrpTxt.PlaintextLayout | crates/meshcore-core/src/grp_txt.rs:104-112 | The plaintext is the timestamp, lowest byte first, a zero and the message |
| GrpTxt.BufferAssertionIff | crates/meshcore-core/src/grp_txt.rs:104-116 | The cipher's buffer assertion holds exactly for messages of at most 171 bytes; those of 180 or more never reach it |
| GrpTxt.PayloadSize | crates/meshcore-core/src/grp_txt.rs:118-122 | The payload has 3 + 16*ceil((5+len)/16) bytes, at most 179 |
| GrpTxt.EncodeGrpTxt | crates/meshcore-core/src/grp_txt.rs:97-138 | The buffer code builds exactly the specified packet, or none for 180 bytes and more |
| GrpTxt.DecodeGrpTxt | crates/meshcore-core/src/grp_txt.rs:48-80 | The buffer code decodes exactly as specified, for every payload; scratch need hold the plaintext only if the MAC matches |
| Dedup.SeenIffRemembered | crates/meshcore-core/src/dedup.rs:85-122 | Over any history, a non-zero hash is reported seen exactly when it is among the last N insertions and not cleared since |
| Dedup.SeenUntil | crates/meshcore-core/src/dedup.rs:85-122 | Counted from its last insertion, it is seen exactly until N further insertions or a clear |
| Dedup.AfterIsDistinct | crates/meshcore-core/src/dedup.rs:85-122 | Stored non-zero hashes stay distinct over any history |
| Dedup.FirstMatchIsEnough | crates/meshcore-core/src/dedup.rs:114-122 | Clearing the first match clears every match |
| Dedup.EchoIsRecognised | boards/rak4631/src/main.rs:430-437 | After any registration, whatever it answered, a copy that comes back over the wire is recognised exactly while fewer than N insertions have followed the last insertion of its hash and no clear has |
| Dedup.RegistrationLasts | boards/rak4631/src/main.rs:430-437 | A registration lasts N further insertions less those between the last insertion of its hash and itself, or until a clear |
| Dedup.FullTermIff | boards/rak4631/src/main.rs:430-437 | It survives N-1 further insertions exactly when none lies between that insertion and the registration |
| Dedup.RegistrationIsNotRenewed | boards/rak4631/src/main.rs:430-437 | The failing input: with two slots a second registration is dropped by one further insertion |
| Dedup.PreimageIff | crates/meshcore-core/src/dedup.rs:25-42 | The bytes fed to the hash agree for two packets exactly when these agree in type, payload and, for type 9 (TRACE), path_len |
| Dedup.PreimageLayout | crates/meshcore-core/src/dedup.rs:25-42 | These bytes are the type, for type 9 the path_len byte, and the payload; the hash is the first 8 bytes of the digest |
| Dedup.HashSurvivesWire | crates/meshcore-core/src/dedup.rs:25-42 | A packet read back from its wire form has the hash of any packet with its type, payload and, for TRACE, path_len |
| Dedup.ZeroHashIsSeenAtOnce | crates/meshcore-core/src/dedup.rs:72-79 | The zero hash is the empty marker: a fresh table claims to have seen it |
| Dedup.RingInsert | crates/meshcore-core/src/dedup.rs:105-108 | Overwriting at next_idx and stepping round drops the oldest entry and appends the new one |
| Dedup.PacketDedup.HasSeen | crates/meshcore-core/src/dedup.rs:85-109 | The ring answers and changes as the window does, and counts duplicates by route type |
| Dedup.PacketDedup.ClearEntry | crates/meshcore-core/src/dedup.rs:114-122 | The ring forgets the hash |

## Left out

- Float rounding, NaN and infinities: the delay arithmetic is over exact reals; `Pow10.WhichEulerIsMonotone` shows what rounding the constant alone does.
- Clock ticks: instants are milliseconds and `Instant::MAX` is the largest 64-bit number of them; instants within 2^32 ms of it are excluded.
- The consumer of `rx_out`: whether `try_send` finds room does not influence the loop; the ledger records the offer.
- The concurrency of the submission channel: the script lists the requests each drain takes, in any number.
- Async executor, wakers and cancellation: the select is a choice of the script.
- GrpTxt.EncodeGrpTxt: messages of 172 to 179 bytes are excluded, because the cipher's buffer assertion fails for them; `GrpTxt.BufferAssertionIff` gives the exact range.
- Crypto.MacThenDecrypt: too small a destination is a precondition, because the source panics there.
- Dedup.SeenIffRemembered: non-zero hashes only, because the zero hash is the empty marker.
- Airtime.EstimateMonotone: the longer frame's estimate must not wrap, because a wrapped one can be smaller (`Airtime.WrappedCanBeSmaller`); spreading factors of 32 and more are excluded, because the source's shift fails there.
- DispatcherLoop.Dispatcher.Run: a listen wait that never ends stops the loop for good, so a script has no iteration after it (`ListenBeforeTalk.EndsIff` says when no wait can do that); requests must hold the path bytes their path_len announces, because serialising panics otherwise.
- TxQueue.DrainKeepsTies: sufficient only, because reversals in a drain can cancel (`TxQueue.ReversalsCancel`); the condition for each single pop is exact.
- DutyCycle.New: negative airtime factors are excluded, because the rate would exceed one or its division fail.
- Liveness: that the budget recovers or every queued packet is sent is not promised by the code; see `Starvation.StarvationFromStart`.
- AES, HMAC, SHA-256, key exchange and `identity.rs` internals; no secrecy or collision resistance is claimed.
- Payload-type tables, `rtc.rs`, radio drivers and the board firmware.
