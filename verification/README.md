# Chii rate limiter and routing glue, modelled in Dafny

Chii is a small URL shortener built on Starlette. Its one piece of real
algorithmic content is an in-memory GCRA (Generic Cell Rate Algorithm) rate
limiter (`core/limiter.py`). Each key (`"{ip}@{path}"`) keeps one number, its
theoretical arrival time (TAT). A request is admitted while the TAT lies no
more than `period - period/rate` ahead of the clock. Each admission pushes the
TAT one emission interval (`period/rate`) further. Around the limiter,
`core/core.py` decides per request whether to consult the limiter and answers
429 when it refuses. It also turns decorated coroutines into routes, prefixes
their paths with the view and application names, and keeps view names unique.

The project has five modules:

- `Limiter` (`limiter.dfy`): the `RateLimit` descriptor, one GCRA step `Step`
  as a pure function over the key -> TAT map, and the `Store` class whose
  `Update` method is proved to perform exactly that step.
- `LimiterRuns` (`limiter_runs.dfy`): properties of whole call histories.
  These cover burst size, key isolation, monotone TATs and keys never
  disappearing.
- `Core` (`core.dfy`): the `limit` and `route` decorators and the admission
  decision with its key. It also has `_Route.__call__` against the store,
  `View.__new__`, `View.name`/`__eq__`, and the `Application` class with
  `add_view`.
- `Text` (`text.dfy`): ASCII `str.lower` and single-character `str.lstrip`.
- `Wrappers` (`wrappers.dfy`): `Option` and `Result`.

Time is a `real` number of seconds, and all arithmetic is exact. Each call
of `update` reads the clock twice. The first read is `now` (core/limiter.py:52).
The second is `read`, taken inside `get_tat` (core/limiter.py:43), which is
what a key with no stored TAT gets as its TAT. Both are parameters.

Facts about the limiter that the model keeps:

- Nothing ever removes a key from the store; there is no expiry.
- The store keeps only the TAT, not the limit that produced it.
- A rejection returns the raw separation `max(tat, now) - now`, not the
  overage beyond the tolerance.
- `RateLimit` accepts any integers; nothing validates them.

## Model

| member | source | states |
|---|---|---|
| `Limiter.RateLimit.Inverse` | core/limiter.py:33-35 | The emission interval times `rate` is exactly the period; for a valid limit it lies in (0, period]. |
| `Limiter.RateLimit.MaxInterval` | core/limiter.py:56 | The burst tolerance `period - inverse` is `rate - 1` emission intervals, non-negative and below the period. |
| `Limiter.InverseExamples` | core/limiter.py:33-35 | 5 per 10 s gives an interval of 2.0 s; 1 per 1 s gives 1.0 s. |
| `Limiter.StoredTat` | core/limiter.py:42-44 | The TAT read is the stored one, or the clock value for an unseen key. |
| `Limiter.Step` | core/limiter.py:50-64 | Admission holds iff `max(tat, now) - now <= period - inverse`, where `tat` is the stored TAT or, for an unseen key, the second clock read. A rejection returns that separation, which is above the tolerance and positive (and equals `stored TAT - now` for a stored key), and leaves the map unchanged. An admission writes `max(tat, now) + inverse` for the key, later than `now` and than the old TAT. No other key is touched. |
| `Limiter.ReadMattersOnlyForNewKeys` | core/limiter.py:42-44 | For a key with a stored TAT, the second clock read does not affect the step. |
| `Limiter.StepOneRead` | core/limiter.py:50-64 | The step with both clock reads equal: an unseen key is admitted at every valid rate with TAT `now + inverse`; a stored key gets the step of the source whatever the second read. |
| `Limiter.Store.constructor` | core/limiter.py:39 | The store starts empty. |
| `Limiter.Store.GetTat` | core/limiter.py:41-44 | Reads the stored TAT, defaulting to the clock value passed in. |
| `Limiter.Store.SetTat` | core/limiter.py:46-48 | Overwrites exactly one entry of the map. |
| `Limiter.Store.Update` | core/limiter.py:50-64 | The decision and the new map are exactly `Step` of the old map with both clock reads. A rejection leaves the map unchanged; an admission changes only `key`, to a TAT later than `now`. |
| `Limiter.FreshKeyAdmitted` | core/limiter.py:42-62 | An unseen key whose two clock reads lie at most the tolerance apart is admitted, with TAT `max(read, now) + inverse`. |
| `Limiter.FreshKeyRejected` | core/limiter.py:42-59 | An unseen key whose two clock reads lie further apart than the tolerance is rejected with retry `read - now`, and nothing is stored. |
| `Limiter.FreshKeyRejectedAtRateOne` | core/limiter.py:42-59 | At one request per period the tolerance is zero: an unseen key is rejected whenever the second read is later than the first. |
| `Limiter.EarliestAdmission` | core/limiter.py:55-62 | After a rejection of a stored key with value `r`, a retry `w >= 0` seconds later is admitted iff `w >= r - (period - inverse)`. So the reported value overstates the needed wait by the burst tolerance. |
| `Limiter.RetryThenAdmitted` | core/limiter.py:55-62 | For a stored key, retrying after the reported number of seconds is always admitted. |
| `LimiterRuns.Run` | core/limiter.py:50-64 | A history of `update` calls yields one decision per call. |
| `LimiterRuns.TatNeverDecreases` | core/limiter.py:39-64 | Over any history, no key is ever removed and no stored TAT ever decreases, whatever other keys and the clock do. |
| `LimiterRuns.KeysAreIsolated` | core/limiter.py:47-62 | In any interleaving, the decisions on key `k` and `k`'s final TAT equal those of running only the calls on `k`, from any map that agrees on `k`. |
| `LimiterRuns.RateOneNeverAdmits` | core/limiter.py:42-62 | At one request per period, a key never seen is rejected on every call and never stored, as long as the clock moves between the two reads of each call. |
| `LimiterRuns.BurstIsRun` | core/limiter.py:50-64 | `n` calls on one key with the clock frozen are a run of `n` identical arrivals. |
| `LimiterRuns.AheadBounds` | core/limiter.py:56-58 | Fewer than `rate` intervals fit the burst tolerance; `rate` intervals are exactly the period. |
| `LimiterRuns.BurstAdmits` | core/limiter.py:53-62 | For an unseen key with the clock frozen, the first `j <= rate` calls are all admitted and leave the TAT `j` intervals ahead. |
| `LimiterRuns.BurstThenRejected` | core/limiter.py:53-62 | With the clock frozen, after those `rate` admissions call `rate + 1` is rejected with retry value exactly the period. |
| `LimiterRuns.OnePerSecond` | core/limiter.py:50-64 | At 1 per second with the clock frozen, two calls give admit, then retry 1.0. |
| `LimiterRuns.FivePerTen` | core/core.py:124 | At 5 per 10 s with the clock frozen, six calls give five admits, then retry 10.0. |
| `Text.Lower` | core/core.py:207 | Lower-casing keeps the length, leaves no ASCII capital, and lowers each character in place. |
| `Text.LStrip` | core/core.py:188 | `lstrip("/")` returns the suffix left after removing only leading `/`s; it does not start with `/`. |
| `Text.LowerIdempotent` | core/core.py:207 | Lower-casing an already lower-cased name changes nothing. |
| `Text.LStripAbsorbs` | core/core.py:188 | Stripping twice equals stripping once, and one more leading `/` changes nothing. |
| `Core.Limit` | core/core.py:119-147 | `limit` sets `{rate, per, bucket, exempt}` with bucket `ip` and no exemption by default. It sets them on a bare coroutine or an existing route alike and changes nothing else. |
| `Core.IsReservedName` | core/core.py:109-110 | Each of get/post/put/patch/delete/options is refused as written, and only names of three to seven characters can be refused. |
| `Core.MakeRoute` | core/core.py:92-114 | `route` fails iff the callback is not a coroutine (`NotCoroutine`) or its lower-cased name is get/post/put/patch/delete/options (`ReservedName`). Otherwise the route keeps path, methods, prefix flag and the callback's limits. |
| `Core.ReservedNameIgnoresCase` | core/core.py:109-111 | A name is refused iff its lower-cased form is, so `GET` and `Get` are refused like `get`. |
| `Core.LimitOrderIrrelevant` | core/core.py:113-145 | `@limit` under `@route` and `@limit` over `@route` give the route the same limits. |
| `Core.ClientIp` | core/core.py:69 | A non-empty `X-Forwarded-For` value is the client; otherwise the peer address is. |
| `Core.IsLoopback` | core/core.py:75 | Exactly `127.0.0.1` and `::1` are loopback, and neither contains `@`. |
| `Core.RateLimitKey` | core/core.py:77 | The key is the address, one `@`, then the route path, with those lengths. |
| `Core.SplitKey` | core/core.py:77 | The inverse of `RateLimitKey` used in its proofs; nothing in the source splits keys. Splitting at the first `@` gives a part without `@` and, when an `@` was found, the key back around it. |
| `Core.KeyRoundTrip` | core/core.py:77 | For an address without `@`, the key `ip + "@" + path` splits back into that address and path. |
| `Core.KeyInjective` | core/core.py:77 | Two (address, path) pairs whose addresses contain no `@` share a key only if they are equal. |
| `Core.KeyInjectiveOnPaths` | core/core.py:69-77 | Two (address, path) pairs whose paths contain no `@` share a key only if they are equal, whatever the client-supplied addresses contain. |
| `Core.Admission` | core/core.py:71-77 | The limiter is consulted iff the route has limits, the exemption callback did not answer true, and the client is not `127.0.0.1` or `::1`. The key is then `ip@path` with the route's own decorator path. |
| `Core.Serve` | core/core.py:67-89 | When the limiter is skipped, the handler runs and the store is unchanged. Otherwise the store takes one `Step` with the two clock reads; a retry answers 429 with that retry value and the handler does not run, and an admission runs the handler. |
| `Core.ViewName` | core/core.py:205-207 | A view's name is its class name lower-cased character by character, and is already lower case. |
| `Core.SameView` | core/core.py:221-225 | Two views are equal iff their class names have the same length and agree character by character up to ASCII case. |
| `Core.SameViewEquivalence` | core/core.py:221-225 | View equality is reflexive, symmetric and transitive, and ignores the case of the class name. |
| `Core.RoutePath` | core/core.py:185-188 | With `prefix` the path is `/` + lower-cased class name + `/` followed by the route path minus its leading `/`s; without it the path is unchanged. |
| `Core.PrefixIgnoresLeadingSlash` | core/core.py:188 | `hello` and `/hello` mount at the same prefixed path. |
| `Core.Mount` | core/core.py:196-199 | The framework route has the mounted path, the `_Route` as endpoint, its methods and limits, and the name `Class.callback`. |
| `Core.NewView` | core/core.py:177-203 | One mounted route per member, in order. Each has the prefixed path, the member's methods and limits, and the name `Class.callback`. |
| `Core.JoinPrefix` | core/core.py:241-275 | A non-empty prefix gives `/` + prefix minus its leading `/`s + path; an empty or absent prefix leaves the path unchanged. |
| `Core.PrefixIgnoresLeadingSlashes` | core/core.py:275 | The prefixes `api` and `/api` give the same paths. |
| `Core.Rebase` | core/core.py:275-277 | Re-registering a route changes only its path, which becomes the prefixed path. |
| `Core.RebaseAll` | core/core.py:274-279 | A view's routes are re-registered one for one, in order. |
| `Core.RebaseAllKeepsPaths` | core/core.py:275 | Without a prefix, `add_view` registers a view's routes unchanged. |
| `Core.ContainsView` | core/core.py:221-225 | `view in views` is true iff some listed view has the same lower-cased name. |
| `Core.Application.constructor` | core/core.py:239-241 | A new application has its prefix, no views and no routes. |
| `Core.Application.AddView` | core/core.py:265-281 | A view whose name is taken raises `DuplicateView` and changes nothing. Otherwise its routes are appended under the prefix and the view is appended. View names stay unique. |
| `Core.Application.AddViews` | core/core.py:246-247 | Views are added in order. Without an error all views and all their prefixed routes are added. The first duplicate stops the loop; in the source that error leaves `__init__`, so the caller never receives the partly built application. View names stay unique. |

## Findings

| source | as written | input that shows it | evidently intended | confidence | as-written member | corrected member |
|---|---|---|---|---|---|---|
| core/limiter.py:43-58 | `get_tat` reads the clock again, after `update`'s own read, and gives that later time to a key with no stored TAT. At `rate == 1` the tolerance `period - inverse` is 0.0, so any positive gap between the reads rejects the key. Nothing is stored, so the next call is again a first call. | `RateLimit(1, per)`, a key never seen, second read 1 µs after the first: retry `1e-06`, a 429 on every such call | An unseen key is admitted at every valid rate, with the same instant used for both reads | not executed | `LimiterRuns.RateOneNeverAdmits` (via `Limiter.FreshKeyRejectedAtRateOne`) | `Limiter.StepOneRead` (the burst lemmas use it) |

`Limiter.Store.Update` and `Core.Serve` keep the two clock reads, as the code has them.

## Left out

- The wall clock (`datetime.now`) is not modelled; both of its reads in `update` are parameters.
- `timedelta` microsecond rounding and float division are replaced by exact real arithmetic. Two reads in the same microsecond give the same value, which the model covers by allowing `read == now`.
- Limits with `rate <= 0` or `per <= 0` are not modelled. `Step`, `Update` and `Serve` require positive values. In Python, rate 0 raises `ZeroDivisionError`, and negative values give meaningless limits.
- `Limiter.EarliestAdmission`: stated only for a key that has a stored TAT. A rejected unseen key stores nothing, so its next call depends on a new clock read, not on the retry value; `Limiter.FreshKeyAdmitted` and `Limiter.FreshKeyRejected` cover that case.
- `Limiter.RetryThenAdmitted`: likewise only for a key with a stored TAT.
- `LimiterRuns.BurstAdmits`, `LimiterRuns.BurstThenRejected`, `LimiterRuns.OnePerSecond` and `LimiterRuns.FivePerTen` hold with the clock frozen, so both reads of every call are equal. With a moving clock, `LimiterRuns.RateOneNeverAdmits` shows what happens at rate 1.
- `Store` is a class attribute shared by the whole process; the model makes it one object that callers pass in.
- The retry value is kept as a `real`; turning it into the `Retry-After` header with `str(retry)` (float formatting) is not modelled.
- The `exempt` callback is an awaitable over the request. The model takes its answer as a boolean in `Request`.
- Starlette `Request`/`Response`/`Route`, ASGI send/receive, `inspect.getmembers`, `member._view = self` and the `setattr(member, method, coro)` schema trick are not modelled. `NewView` takes the members already collected, in the order the caller gives.
- `Limit`: the decorator sets an attribute on the object in place; the model returns the updated value, so aliasing of that object is not captured.
- `Core.Application`: routes passed to the Starlette constructor itself (the static `Mount`) are not modelled; `routes` holds only those added by `add_view`.
- `Text.Lower`: only ASCII letters are lowered; Python's full Unicode `str.lower` is not modelled.
- Concurrency: `Store.update` contains no `await`, so each call is one atomic step.
- The `bucket` setting is stored but never used by the source, and the model does the same.
- views/, database/, server/, launcher.py, core/logger.py, types_/ and web/ (handlers, persistence, QR codes, logging, wiring, UI) are not part of this model.
