# Health-check aggregator: a Dafny model

This project models the core of the Go package `health`, which combines health probes:

- **The status record** (`health.go`). A status (UP, DOWN, OUT OF SERVICE or UNKNOWN) plus an info map. It is changed in place by four setters and `AddInfo`, and each of those returns the record so that calls can be chained. `MarshalJSON` flattens the map and always writes the live status under the key `status`.
- **The composite checker** (`checker.go`). A registry of named probes plus static info.
  - `check()` runs every probe concurrently. It folds the results into one record that starts UP and drops to DOWN as soon as any result is not UP. It nests each result under its registered name, then lays the static info over the top.
  - `Start` and `Stop` switch between live evaluation and a cached record. A background ticker refreshes the cache.
- **The cached wrapper** (`cachedchecker.go`). A composite checker whose `Start` seeds the cache with one real evaluation before returning, and whose `Check` only ever reads the cache.

Modules: `Wrappers` (Option), `HealthRecord` (health.go), `Composite` (checker.go), `Cached` (cachedchecker.go).

How the model is built:

- Go's `health` struct is the class `Health`. Its value at one moment is the datatype `Snapshot`.
- Info values are `Value`: nil, the scalar kinds, or a `Nested` snapshot.
- Probes run concurrently, so results reach the fold in an arbitrary order. `Evaluate` (Go's `check()`) therefore takes that order as a parameter: a sequence of `State(name, record)` items holding exactly one result per registration, in any order (`ResultsFor`).
- `Evaluate` is the loop of `check()`. It is proved equal to the function `Combined`, and the lemmas about `Combined` are the properties.
- The background ticker's body is the explicit method `Tick`.

On these points the model follows what the code does, which is not always what its comments or names suggest:

- `CompositeChecker.Start` seeds the cache with a fresh UNKNOWN record. It does not evaluate the probes (checker.go:53), and it writes no `lastcheck.*` keys.
- A static info key equal to a probe name replaces that probe's nested entry (checker.go:137-142). `StaticInfoOverridesProbeScenario` shows this.
- After `CompositeChecker.Stop`, `Check` evaluates live again (checker.go:76, 99-104). It does not keep returning the cached record. (The cached wrapper does keep returning it.)
- `cachedchecker.go` does not compile beside `checker.go`. It declares `lastState` a second time (cachedchecker.go:16), and `NewCachedChecker` takes the address of a pointer (cachedchecker.go:23-24). The model follows the evident intent: the wrapper owns one composite checker.
- `checker.go` does not compile on its own either. `check()` assigns `health.info = healths` (checker.go:137), but `health` has the interface type `Health`, which has no fields. The model follows the evident intent: `Evaluate` replaces the fresh record's info map with the nested results.
- The background loops of `CachedChecker` are not guarded. Every `Start` starts one more loop (cachedchecker.go:30-44). Each loop writes the cache cell that its own `Start` created. `c.lastState` points at the cell of the latest `Start`, so only the loop of the latest `Start` changes what `Check` returns; the cells of earlier loops are orphaned. `Stop` sends on the unbuffered `done` channel, and any one running loop may receive it. The model counts the running loops (`loops`), records whether the latest one is among them (`ticking`), and takes which loop receives the signal as a parameter of `Stop`.

The status type has a fifth value, `Unset`. It is the zero value `""` of Go's `status` string type, and only a bare `health{}` literal carries it; `NewHealth` never leaves it. On such a record none of the four predicates holds, and on every other record exactly one holds.

## Model

| member | source | states |
|---|---|---|
| HealthRecord.StatusString | health.go:7-12 | the empty string is the image of the zero value only; each named status has a non-empty string |
| HealthRecord.StatusStringInjective | health.go:7-12 | the four status strings "UP", "DOWN", "OUT OF SERVICE", "UNKNOWN" (and the zero value "") are pairwise distinct, so the string identifies the status |
| HealthRecord.Health.New | health.go:59-67 | NewHealth has status UNKNOWN and an allocated, empty info map |
| HealthRecord.Health.Zero | health.go:40-44 | the zero value health{} has a nil (empty) map and the empty status string |
| HealthRecord.Health.Down | health.go:105-109 | sets status DOWN, leaves the info map unchanged, returns the same record |
| HealthRecord.Health.OutOfService | health.go:111-115 | sets status OUT OF SERVICE, leaves the info map unchanged, returns the same record |
| HealthRecord.Health.Unknown | health.go:117-121 | sets status UNKNOWN, leaves the info map unchanged, returns the same record |
| HealthRecord.Health.Up | health.go:123-127 | sets status UP, leaves the info map unchanged, returns the same record |
| HealthRecord.Health.GetInfo | health.go:80-83 | an absent key (also on a nil map) reads as nil rather than failing; a present key reads as its stored value |
| HealthRecord.Health.AddInfo | health.go:69-78 | allocates a nil map first; afterwards GetInfo(key) is the value, every other key reads as before, a repeated key is overwritten, status is unchanged, the receiver is returned |
| HealthRecord.Health.MarshalJSON | health.go:46-57 | the map handed to the encoder has every info key plus "status"; "status" holds the live status string and overrides an info entry of that name; every other entry is copied |
| HealthRecord.Health.IsUnknown | health.go:85-88 | true exactly when the status string equals the constant "UNKNOWN" |
| HealthRecord.Health.IsUp | health.go:90-93 | true exactly when the status string equals the constant "UP" |
| HealthRecord.Health.IsDown | health.go:95-98 | true exactly when the status string equals the constant "DOWN" |
| HealthRecord.Health.IsOutOfService | health.go:100-103 | true exactly when the status string equals the constant "OUT OF SERVICE" |
| HealthRecord.ExactlyOnePredicate | health.go:85-103 | at most one of IsUp/IsDown/IsOutOfService/IsUnknown holds, and one holds iff the status is one of the four named values |
| HealthRecord.NewHealthScenario | health_test.go:5-11 | a fresh record is UNKNOWN and not UP, DOWN or OUT OF SERVICE |
| HealthRecord.UpThenDownScenario | health_test.go:31-39 | Up then Down leaves DOWN: a later setter overrides an earlier one |
| HealthRecord.MarshalStatusScenario | health_test.go:77-94 | UP with info status="Should not render" marshals to exactly {"status": "UP"} |
| HealthRecord.AddInfoNilMapScenario | health_test.go:112-122 | AddInfo on health{} allocates the map and stores the entry |
| HealthRecord.GetInfoNilMapScenario | health_test.go:136-144 | GetInfo on the nil map of health{} reads nil |
| Composite.StatusStep | checker.go:130-133 | one step of the fold either keeps the accumulated status or demotes it to DOWN; it is UP afterwards iff it was UP and the result is UP |
| Composite.FoldStatus | checker.go:108-133 | starting from UP, the folded status is always UP or DOWN, never OUT OF SERVICE or UNKNOWN |
| Composite.FoldStatusIsAllUp | checker.go:130-133 | the folded status is UP iff every result is UP, otherwise DOWN (OUT OF SERVICE and UNKNOWN demote to DOWN); no other status arises; no results gives UP |
| Composite.NestResultsKeys | checker.go:134 | the nested keys are exactly the names the results were reported under |
| Composite.Combined | checker.go:107-143 | the combined status is UP or DOWN, and every static key is present in the combined info |
| Composite.CombinedMeaning | checker.go:107-143 | the combined record is UP iff all results are UP, else DOWN; its keys are the result names plus the static keys; static info replaces a nested entry of the same name; other keys keep their nested result |
| Composite.NestResultsLastWins | checker.go:130-135 | the entry under a name is the result of the last result folded with that name |
| Composite.NestResultsFunctional | checker.go:134 | when no two results share a name with different records, each result is the entry under its name |
| Composite.FoldStatusOrderIndependent | checker.go:117-135 | the combined status is the same for every permutation of the results, i.e. for every arrival order |
| Composite.CombinedOrderIndependent | checker.go:117-142 | when names determine results, the whole combined record (nested entries too) is the same for every arrival order |
| Composite.DuplicateNamesOrderMatters | checker.go:130-135 | with two results under one name, the two arrival orders give different combined records |
| Composite.CombinedKeysAreRegisteredNames | checker.go:119-137 | when there is one result per registration, the combined keys are exactly the registered names plus the static keys |
| Composite.CompositeChecker.constructor | checker.go:40-43 | a new checker has no registrations, a nil info map, and is in live mode with no cache |
| Composite.CompositeChecker.Start | checker.go:45-54 | while cached, a no-op; otherwise enters cached mode with the cache set to a fresh UNKNOWN record; registrations and info unchanged |
| Composite.CompositeChecker.Stop | checker.go:71-78 | while live, a no-op; otherwise leaves cached mode; the cache and everything else are unchanged |
| Composite.CompositeChecker.AddInfo | checker.go:80-89 | allocates a nil map, inserts or overwrites one key, changes nothing else, returns the receiver |
| Composite.CompositeChecker.AddChecker | checker.go:91-94 | appends exactly one registration and keeps the earlier ones and their order |
| Composite.CompositeChecker.Evaluate | checker.go:107-144 | for results in any arrival order, one per registration, the record built is Combined(results, static info) |
| Composite.CompositeChecker.Check | checker.go:96-105 | in cached mode, the cached record with no probe evaluated; otherwise the live combined record |
| Composite.CompositeChecker.Tick | checker.go:61-65 | replaces the cache with a fresh combined record and keeps cached mode, the registrations and the info |
| Composite.StartTickStopScenario | checker.go:98-104 | with a probe that reports DOWN: the cached UNKNOWN seed right after Start and UP after a tick that saw UP, neither consulting the probe; after Stop, the live DOWN with the probe's record nested under its name |
| Composite.StaticInfoOverridesProbeScenario | checker.go:137-142 | a static key equal to a probe name replaces that probe's nested entry; the status is still the probe's DOWN |
| Cached.CachedChecker.constructor | cachedchecker.go:21-25 | a new wrapper owns a fresh composite checker with no registrations, a nil info map, live mode and no cache of its own; the wrapper has no cache and no running loop |
| Cached.CachedChecker.Start | cachedchecker.go:27-46 | before returning, the cache holds the result of one composite Check of the current registrations and info; one more loop runs, and it is the one whose ticks reach the cache; allowed in any state, including a second Start without a Stop |
| Cached.CachedChecker.Tick | cachedchecker.go:38-42 | a tick of the latest Start's loop replaces the cache with a fresh composite Check and changes nothing else |
| Cached.CachedChecker.Stop | cachedchecker.go:48-51 | ends exactly one running loop, either the latest Start's (then the cache is no longer refreshed) or an older one (then the latest keeps refreshing it); the cache itself is left as it is |
| Cached.CachedChecker.AddInfo | cachedchecker.go:53-57 | sets the key in the wrapped checker's info map, keeps the same wrapped checker with its registrations and its own cache, changes neither the wrapper's cache nor its loops, returns the receiver |
| Cached.CachedChecker.AddChecker | cachedchecker.go:59-62 | appends exactly one registration to the wrapped checker's list; its info map, allocation and own cache are unchanged |
| Cached.CachedChecker.Check | cachedchecker.go:64-70 | returns the cached record without evaluating any probe; before any Start, it is the nil-pointer failure (None) |
| Cached.UpCheckersScenario | cachedchecker_test.go:8-20 | two UP probes under one name plus info key=value: Check after Start, and after a tick, is UP and carries the key |
| Cached.DownCombinedScenario | cachedchecker_test.go:22-32 | with one DOWN and one UP probe, Check right after Start is DOWN |
| Cached.CheckBeforeStartScenario | cachedchecker.go:66-70 | Check before Start has no cache to read |
| Cached.DoubleStartScenario | cachedchecker.go:27-51 | after two Starts, a Stop received by the older loop leaves the latest loop refreshing the cache (a later tick that sees DOWN shows DOWN), and a second Stop still finds a loop to receive it |

## Left out

- Goroutines, `sync.WaitGroup`, the buffered result channel, the `RWMutex` locks, `time.Ticker` and the `done` channel. The fan-out is replaced by "results arrive in an arbitrary order", and the ticker loop by the explicit `Tick` method. `Stop` blocking on its unbuffered send is not modelled.
- Cached.CachedChecker.Stop: requires a running loop to receive the signal. With none, the source's unbuffered send blocks forever and the call never returns; a call that never returns is not modelled.
- Cached.CachedChecker.Tick: only ticks of the latest Start's loop are a method. A tick of an older loop writes an orphaned cell that nothing reads, so it has no observable effect, and the model has no method for it.
- Aliasing of records. Probe results, nested entries and cached records are snapshot values. In the source they are pointers to the same Health object, so a caller that mutates a returned record would change the shared copy; the model does not capture that.
- The bytes produced by `encoding/json`. Only the map handed to the encoder is modelled, and nested records stay nested `Value`s.
- Concrete probes: `url/checker.go` (HTTP client I/O) and `tcp/checker.go` (a TCP probe through a foreign library). A probe is only the opaque `Probe` identity; what it reports is the parameter of `Evaluate`, `Check`, `Tick` and `Start`. The test probes `upTestChecker` and `downTestChecker` are not part of this model; the scenarios assume they report a bare UP or DOWN record. The model assumes every probe returns a non-nil record: a probe whose `Check()` returns a nil `Health` makes `check()` panic at `s.h.IsUp()` (checker.go:131), and `State.h` is a `Snapshot`, so the model has no such result.
- `CheckerFunc` (checker.go:13-19): a trivial adapter with nothing to verify.
- `time.Duration` intervals: timing is not observable in a sequential model. The model also assumes a positive interval. `time.NewTicker` panics on a non-positive one, which the composite `Start` reaches after its guard and before entering cached mode (checker.go:51), and the cached `Start` reaches before its seed evaluation (cachedchecker.go:29); the model's `Start` methods take no interval and always succeed.
