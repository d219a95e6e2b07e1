# pydash chart windows in Dafny

pydash is a Django dashboard. Four of its endpoints in `pydash/views.py` draw live charts:

- `memusage`
- `loadaverage`
- `gettraffic`
- `getdiskio`

None of them keeps server-side state. Each one reads its series back from a cookie that the previous response set. It polls those series with a fresh reading and returns a Chart.js payload. Then it writes the updated series back to the cookie.

This project models that bookkeeping as pure functions from the decoded cookie and a reading to a payload and the new cookie state, and proves what it does.

Modules:

- `PyNum` (`pynum.dfy`): the Python 2 numbers the series hold. An int and a float are told apart because the code depends on the difference:
  - `sum` of ints is an int;
  - `/` between ints is floor division;
  - `+= 0.1` makes a float.
- `Window` (`window.dfy`): trimming an over-long series and pushing a sample, following the source's two independent `if`s. A series one short of capacity gets the sample twice and loses its oldest sample. The textbook bounded FIFO `Fifo` is the reference definition. The lemmas say exactly when a poll differs from it.
- `Rates` (`rates.dfy`): the traffic rate in KBps (float division), the disk rate (floor division, then `int()`), and the rescale to MBps.
- `Compensation` (`compensate.dfy`): the "division by 0 Chart.js" nudge, which adds 0.1 to the newest sample of a full series when the series sums to zero or its mean equals its oldest sample. The main lemma shows that a full compensated series is never flat. That holds for ideal reals only: in IEEE doubles `sum([0.1] * 10)` is `0.9999999999999999`, whose tenth is not `0.1`, so the source leaves a constant 0.1 load chart flat.
- `Endpoints` (`endpoints.dfy`): the four endpoints as state transitions, plus reading and writing their cookies. The memory cookie's buffers series goes to a misspelt variable when read (`atasets_buffers`), so it is never read back and restarts from the new reading on every poll that has a cookie.
- `Sessions` (`sessions.dfy`): several polls in a row by one client, each poll sending back the cookie the previous one wrote.

The chart payload is modelled as its labels and its data series. The labels are ten copies of a unit (`Endpoints.Labels`): "KBps" or "MBps" for traffic and the empty string for the other charts.

On a fresh client polling memory three times with the same reading `u`, the code gives the used series `[0, u, u, u]`: the starting zero plus one sample per poll. (`Sessions.ThreeMemoryPolls`).

## Model

| member | source | states |
|---|---|---|
| PyNum.Add | pydash/views.py:341 | `+` on Python 2 numbers: the result is an int exactly when both operands are, and its value is the sum of the values |
| PyNum.Sub | pydash/views.py:518 | `-` on Python 2 numbers: an int exactly when both operands are, valued at the difference |
| PyNum.Bump | pydash/views.py:342 | `x += 0.1` always gives a float, 0.1 above `x` |
| PyNum.ToFloat | pydash/views.py:518 | `float(x)` gives a float of the same value |
| PyNum.ToInt | pydash/views.py:640 | `int(x)` leaves an int alone and truncates a float toward zero: within 1 of `x`, on the side of zero |
| PyNum.DivBy | pydash/views.py:343 | `a / k` with a positive int `k` keeps the int/float tag; an int quotient is the floor (`q*k <= a < q*k + k`) and a float quotient is exact |
| PyNum.SumIsInt | pydash/views.py:341 | `sum(w)` is an int if and only if every sample is an int |
| PyNum.SumSnoc | pydash/views.py:341 | summing one more sample adds its value |
| PyNum.SumAllEqual | pydash/views.py:343 | a series whose samples all have value `c` sums to its length times `c` |
| Window.DropFront | pydash/views.py:299-303 | the deletion loop stops with exactly the newest `cap` samples, in order |
| Window.Trim | pydash/views.py:299-318 | an over-long series keeps exactly its newest `cap` samples in their order; one within capacity is untouched |
| Window.Push | pydash/views.py:319-338 | below `cap - 1` the sample is appended; at `cap - 1` it is appended twice and the oldest sample dropped; at `cap` the oldest gives way to it; the length never passes `cap` |
| Window.Slide | pydash/views.py:410-419 | a poll (trim, then push) leaves `min(len + 1, cap)` samples, ends with the new one, and in each length case equals the stated closed form |
| Window.SlideIsFifoUnlessOneShort | pydash/views.py:415-419 | a poll equals the bounded FIFO if and only if the series is not one short of capacity or already holds only the new sample |
| Window.OneShortIsFifoIffConstant | pydash/views.py:415-419 | one short of capacity, appending twice and dropping the oldest equals appending once if and only if every sample equals the new one |
| Window.ShiftFixedIsConstant | pydash/views.py:417-419 | a series equal to its own shift by `v` holds only `v` |
| Window.FullWindowIsFifo | pydash/views.py:410-419 | once a series is full, any number of polls keeps exactly the newest `cap` of all samples seen |
| Window.SlideAllLength | pydash/views.py:410-419 | a series grows by one sample per poll until it holds `cap`, then stays full |
| Window.SlideAllSplit | pydash/views.py:410-419 | polling with `xs` and then `ys` is polling with `xs + ys` |
| Window.SlideAllGrows | pydash/views.py:415-416 | while a series stays short of capacity, polls only append |
| Window.TwoPollsFromOneShort | pydash/views.py:415-419 | from one short of capacity, two polls drop the two oldest samples and double the first new sample |
| Window.ElevenPolls | pydash/views.py:410-419 | eleven polls from empty lose the two oldest samples and double the tenth: samples 0..10 leave `[2, 3, 4, 5, 6, 7, 8, 9, 9, 10]` |
| Window.OnePollPastCapacityIsNotFifo | pydash/views.py:415-419 | eleven polls from empty do not leave the newest ten samples, unless the second and third samples are equal |
| Window.CounterPair | pydash/views.py:506-515 | a counter pair holding two or more readings becomes its newest reading followed by `v` |
| Window.CounterPairFirst | pydash/views.py:506-510 | a counter pair holding one reading becomes `[v, v]`, so the first rate is 0 |
| Rates.RateTraffic | pydash/views.py:517-520 | the traffic rate is a float; with float readings it equals the delta / 1024 / refreshSecs; it is negative exactly when the counter went down |
| Rates.RateDisk | pydash/views.py:639-642 | the disk rate is an int: the floor of the int delta over refreshSecs, or a float quotient truncated toward zero; negative exactly when the counter went down |
| Rates.DivBySign | pydash/views.py:518 | dividing by a positive int keeps the sign, floor division included |
| Rates.Rescale | pydash/views.py:522-525 | the unit is MBps if and only if either rate exceeds 1024; then both rates are divided by 1024 as floats; otherwise both pass unchanged with unit KBps |
| Rates.DiskRateExample | pydash/views.py:639-640 | counts 1000 and 1500 over 5 seconds give a disk rate of 100 |
| Rates.RescaleExample | pydash/views.py:522-525 | 2000 KBps each way shows as 1.953125 MBps; 500 KBps stays in KBps |
| Compensation.Compensate | pydash/views.py:339-344 | only a series of exactly ten changes, and only at index 9, by 0, 0.1 or 0.2; a full series with a non-zero sum is left alone when its `sum / 10` differs from its oldest sample and gets exactly 0.1 when it equals it |
| Compensation.SumOfFull | pydash/views.py:341 | the sum of a full series is the sum of its first nine samples plus the newest |
| Compensation.CompensateZeroSum | pydash/views.py:340-344 | a full series summing to 0 gets 0.1, plus a second 0.1 exactly when its oldest sample is 0.01 |
| Compensation.CompensateFlat | pydash/views.py:340-344 | a full flat series keeps its first nine samples and its newest becomes the common value plus 0.1 |
| Compensation.FlatMeanIsOldest | pydash/views.py:343 | a full flat series' `sum / 10`, floor division included, equals its oldest sample |
| Compensation.CompensateNeverFlat | pydash/views.py:339-344 | a full series is never flat after compensation |
| Compensation.FloorMeanBumpsUnevenWindow | pydash/views.py:341-344 | the int series of nine 5s and a 14 is not flat, yet its floor mean 59 / 10 is 5, so its newest sample becomes the float 14.1 |
| Compensation.SecondBumpNeverFlat | pydash/views.py:343-344 | a series bumped because its mean equals its oldest sample is not flat afterwards |
| Endpoints.LabelsAreUnit | pydash/views.py:347 | the x-axis labels are ten copies of the unit |
| Endpoints.ReadMemory | pydash/views.py:287-297 | no cookie starts every series at `[0]`; a cookie gives back free, used and cached from positions 0, 1 and 3, and an empty buffers series |
| Endpoints.ReadRates | pydash/views.py:473-483 | no cookie starts every series at `[0]`; the counter pairs read from a cookie are non-empty |
| Endpoints.MemoryCookieRoundTrip | pydash/views.py:380 | a written memory state reads back unchanged except buffers, which reads back empty |
| Endpoints.RatesCookieRoundTrip | pydash/views.py:565 | a written traffic or disk state reads back unchanged and readable |
| Endpoints.Polled | pydash/views.py:319-338 | a polled level series holds one to ten samples, grows by one up to ten, and ends with the reading |
| Endpoints.PolledIsSlide | pydash/views.py:319-338 | the endpoints' closed form of a level-series poll is the trim-then-push poll on every series |
| Endpoints.Charted | pydash/views.py:527-543 | a polled and compensated series has one to ten samples; short series just grow; the newest sample is the reading nudged by 0, 0.1 or 0.2; a full one is not flat; one of nine keeps its newest eight and the reading, then the nudged reading again; an over-long one keeps its newest nine before the reading |
| Endpoints.PollPairIsSlide | pydash/views.py:506-515 | on a non-empty pair, the closed form `[previous, v]` is the trim-then-push poll with capacity 2 |
| Endpoints.MemUsage | pydash/views.py:268-386 | after any poll every memory series has one to ten samples and buffers at most two; the chart shows used, free, buffers and cached in that order, with empty labels; the series contents are stated by `Endpoints.MemUsageSlides` |
| Endpoints.MemUsageSlides | pydash/views.py:287-344 | free, used, buffers and cached are each the series read from the cookie polled with its reading (trim to ten, then push), free then compensated |
| Endpoints.MemUsageNewest | pydash/views.py:319-344 | used, buffers and cached end with the reading; free ends with it nudged by 0, 0.1 or 0.2 and is never flat when full |
| Endpoints.MemUsageFresh | pydash/views.py:287-291 | with no cookie every memory series becomes `[0, reading]` |
| Endpoints.MemUsageBuffersRestart | pydash/views.py:296 | with a cookie, buffers always comes out as the single new reading |
| Endpoints.MemUsageUsedGrows | pydash/views.py:324-325 | a stored used series shorter than nine grows by the reading |
| Endpoints.MemUsageUsedShifts | pydash/views.py:304-308 | a stored used series of ten or more keeps its newest nine, then the reading |
| Endpoints.LoadAverage | pydash/views.py:390-446 | the load series has one to ten samples; the newest is the load nudged by 0, 0.1 or 0.2; a full one is not flat; without a cookie it is `[0, load]`; it grows by one up to ten; a full stored series keeps its newest nine; in every case it is the stored series polled with the load and compensated |
| Endpoints.TrafficRates | pydash/views.py:517-525 | with float readings both rates are delta / 1024 / refreshSecs, divided by 1024 again with unit MBps exactly when either exceeds 1024 |
| Endpoints.GetTraffic | pydash/views.py:450-571 | the state stays well formed; each pair is the previous reading then the new one; the chart's labels carry the rescale's unit; out is the stored out series polled with the out rate; in is the stored in series polled with the in rate and compensated, so it ends with that rate nudged by 0, 0.1 or 0.2 and is never flat when full |
| Endpoints.GetTrafficFresh | pydash/views.py:473-477 | a fresh client's first traffic poll charts 0 KBps each way, with each pair holding the reading twice |
| Endpoints.DiskIo | pydash/views.py:575-688 | the state stays well formed; each pair is the previous count then the new one; in and out are the stored series polled with the disk rates of the read and write pairs, in then compensated; the write rate is the floor of the count delta over refreshSecs; in is never flat when full; empty labels |
| Endpoints.DiskIoFresh | pydash/views.py:595-599 | a fresh client's first disk poll charts 0 each way, with each pair holding the count twice |
| Sessions.LoadHistoryLength | pydash/views.py:406-419 | polling the load chart once per reading grows the series by one per poll up to ten |
| Sessions.FreshLoadHistoryLength | pydash/views.py:406-419 | a fresh client's load chart holds one more point than its poll count, up to ten |
| Sessions.MemoryIgnoresStoredBuffers | pydash/views.py:296 | the memory endpoint gives the same result whatever buffers series the cookie holds |
| Sessions.ThreeMemoryPolls | pydash/views.py:287-338 | three polls by a fresh client with one reading give used `[0, u, u, u]` and buffers `[b]` |
| Sessions.TwoDiskPolls | pydash/views.py:595-653 | two disk polls by a fresh client give read pair `[first, second]` and read series `[0, 0, (second - first) / refreshSecs]` |
| Sessions.TwoDiskPollsExample | pydash/views.py:639-640 | two read counts 500 apart (1000 then 1500, say), polled five seconds apart, chart `[0, 0, 100]` |

## Left out

- Django request and response handling, `login_required`, and the JSON encoding of the payload and of the cookie: I/O. The cookie is modelled already decoded, as `Cookie<T>`. An absent or empty cookie is `NoCookie`.
- The `services` calls that produce the readings, and the `except` branches that set a reading to `0`. In `memusage`, `gettraffic` and `getdiskio` those branches then subscript the `0` and raise, so the model takes well-formed readings, already converted by `int()` or `float()`, as inputs. In `loadaverage` the `0` only goes through `float()`, which is the load `0.0`, a reading the model already allows.
- A malformed cookie (fewer than four series, or an empty counter pair) raises in the source. The model makes well-formedness a precondition rather than modelling the exception.
- `get_pydash_urls` and the pass-through endpoints (`getnetstat`, `platform`, `getcpus`, `uptime`, `getdisk`, `getips`, `getusers`, `getproc`, `cpuusage`): they only forward `services` results.
- The constant colour and style fields of the chart payloads: they hold nothing to verify.
- IEEE floating point: floats are ideal reals, so `+= 0.1` and float equality are exact in the model.
- `TIME_JS_REFRESH_NET` comes from settings that are not part of this model. `refreshSecs`, its value divided by 1000, is a parameter required to be a positive int.
- Rates.RateTraffic: when both readings are ints, the contract states only that the rate is a float and gives its sign, not its value. In `gettraffic` that case is unreachable: the second reading of a polled pair is always the new float reading (`Endpoints.GetTraffic` states the pairs).
- Endpoints.ReadRates: the contract does not restate which series comes from which cookie position; `Endpoints.RatesCookieRoundTrip` states it as a round trip.
