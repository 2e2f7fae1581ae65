# fakemetrics in Dafny

A model of the fake metrics generator of `main.go`. The generator resolves a
configuration with defaults, renders metric identities of the form
`prefix + name + "{" + k="v",... + "}"`, registers `counter_i`, `gauge_i` and
`histogram_i` metrics in a process-wide registry, and then updates the
counters and histograms on every tick until it is stopped.

The project has four modules, one per file, plus a small `Wrappers` module that
holds `Option`:

- `Naming` (`naming.dfy`) holds the identity string and the `%d` base names.
  - `Identity` is the reference definition of what `buildName` returns.
  - The label map's iteration order is an explicit `order` parameter. It may be
    any sequence that visits every key exactly once (`IsOrderOf`).
- `Metrics` (`metrics.dfy`) stands in for the VictoriaMetrics registry.
  - `Registry` is a class whose `entries` map is updated in place.
  - Each entry is a counter with its total, a gauge, or a histogram with its
    number of observations.
  - `Registered`, `Added` and `Observed` are functions giving the registry
    after a sequence of registrations, counter additions or observations.
  - Lemmas state, per identity, what those sequences do to the registry.
- `Lifecycle` (`lifecycle.dfy`) abstracts `Start`, the ticks of the background
  task and `Stop` into a sequential state machine.
  - The phases are `Created`, `Started` and `Stopped`.
  - A tick is possible only while started with updates enabled.
  - A second `Stop` is a misuse, because closing a closed channel panics.
- `FakeMetrics` (`fakemetrics.dfy`) holds the configuration, its defaulting and
  the `Generator` class.
  - `BuildName` and the registration and update loops are methods with `while`
    loops, proved against `Identity`, `AfterCreate` and `UpdatePass`.
  - Lemmas state the registry effects the source promises.

Random draws and label iteration orders are method parameters:

- `draws[i]` is the value of `rand.Intn(10)` for counter `i`, constrained to
  `[0, 10)`.
- `co`, `go` and `ho` give one label iteration order per rendered counter,
  gauge and histogram identity.

Two of the cases in which the registry library panics are preconditions:

- registering an identity that is already registered;
- a get-or-create that finds a metric of another kind.

The library also validates every metric name on registration and on the create
path of get-or-create, and panics on a malformed one. That validation is not
modelled (see "Left out").

`time.NewTicker` panics on a non-positive interval, so `Start` requires a
positive interval when updates are enabled.

Where the test file and the code disagree, the model follows the code:

- `fakemetrics_test.go:28` expects the default prefix `app_`, but
  `main.go:35` sets `fake_`. `DefaultsOfZeroConfig` states the `fake_` result.
- `fakemetrics_test.go:89` expects one fixed label order. Go's map iteration
  does not fix one. `IdentityEnvFirst`, `IdentityZoneFirst` and
  `IdentityDependsOnOrder` show that both orders are possible and give
  different strings.

## Model

| member | source | states |
|---|---|---|
| FakeMetrics.ApplyDefaults | main.go:33-53 | exactly the zero-valued fields get their defaults (`fake_`, 10, 10, 10, 2s, `environment="lazy"`); every other field and `updateMetrics` are kept; the result is resolved, and a resolved input is returned unchanged |
| FakeMetrics.DefaultsApplied | main.go:33-53 | the reference definition of defaulting: each zero-valued field (labels: nil) takes its default, every other field and `updateMetrics` are kept |
| FakeMetrics.DefaultsAppliedUnique | main.go:33-53 | the defaulting relation determines the resolved configuration |
| FakeMetrics.DefaultsIdempotent | main.go:33-53 | defaulting a defaulted configuration changes nothing, and its result is resolved |
| FakeMetrics.DefaultsFixpoint | main.go:33-53 | a configuration is its own defaulting exactly when no defaulted field is zero |
| FakeMetrics.DefaultsOfZeroConfig | fakemetrics_test.go:24-37 | the zero configuration resolves to prefix `fake_` (not `app_`), counts 10, interval 2s and labels `environment="lazy"` |
| FakeMetrics.EmptyLabelsKept | main.go:49-53 | a non-nil empty label map stays empty, so every identity is the bare prefix plus name |
| FakeMetrics.LabelsOf | main.go:132 | the map buildName ranges over: a nil label map ranges as empty |
| FakeMetrics.Generator.New | main.go:32-59 | the generator holds the defaulted, resolved configuration and is not yet started |
| FakeMetrics.Generator.BuildName | main.go:130-141 | the loop over the labels in the given iteration order returns `Identity` for that order |
| Naming.LabelItem | main.go:133 | the rendering `k="v"` of one label, with no escaping of quotes |
| Naming.Items | main.go:131-134 | the reference definition of the rendered labels: one item per key, in the order the map is walked |
| Naming.Join | main.go:140 | `strings.Join`: empty for no parts, the part itself for one, parts separated by the separator otherwise |
| Naming.Identity | main.go:130-141 | the reference definition of buildName for one iteration order: prefix + name without labels, else prefix + name + `{` + comma-joined items + `}` |
| Naming.OrderLength | main.go:132 | an iteration order visits as many keys as the map holds |
| Naming.IdentityWithoutLabels | main.go:136-138 | with no labels the identity is exactly prefix plus name |
| Naming.IdentityWithLabels | main.go:131-140 | with labels the identity starts with prefix + name + `{` and ends with `}`; between the braces is the comma join of one item per label; the items are exactly the set of `k="v"` renderings of the map, and each text occurs as often as there are labels rendering to it, so each label contributes exactly one item |
| Naming.ItemsCoverLabels | main.go:132-134 | the items rendered in any iteration order are exactly the `k="v"` renderings of the map's entries |
| Naming.LabelItemsOrderIndependent | main.go:132-134 | two iteration orders render the same number of items, the same set of items and the same multiset: the item lists are permutations of each other |
| Naming.OrdersPermute | main.go:132 | two iteration orders of the same map are permutations of each other |
| Naming.PermutedItems | main.go:132-134 | key sequences that are permutations of each other render item lists that are permutations of each other |
| Naming.ItemsCount | main.go:131-134 | a text occurs among the rendered items exactly as often as there are labels whose `k="v"` rendering it is |
| Naming.IdentityCanonicalForOneLabel | main.go:131-140 | with at most one label every iteration order gives the same identity |
| Naming.IdentityEnvFirst | fakemetrics_test.go:79-90 | walking `env` first renders `test_metric_1{env="prod",zone="us-east"}` |
| Naming.IdentityZoneFirst | main.go:132-140 | walking `zone` first, which Go's map iteration also permits, renders `test_metric_1{zone="us-east",env="prod"}` |
| Naming.IdentityDependsOnOrder | main.go:132-140 | for the two-label test map both orders are valid and give different identities |
| Naming.TestOrdersDiffer | main.go:132-140 | for any prefix and name, the two orders of the two-label test map give different identities |
| Naming.IdentityInjective | main.go:136-140 | distinct base names without `{` never render to the same identity, whatever the orders |
| Naming.Decimal | main.go:95 | the `%d` rendering of a natural number is non-empty and all digits |
| Naming.DecimalRoundTrip | main.go:95 | reading the decimal rendering back gives the number |
| Naming.KindWord | main.go:95 | the literal part `counter_`, `gauge_` or `histogram_` of each `fmt.Sprintf` base name format |
| Naming.BaseName | main.go:95 | the base name `counter_<i>`, `gauge_<i>` or `histogram_<i>` that `fmt.Sprintf` formats |
| Naming.BaseNameParts | main.go:95 | a base name is its kind's word followed by the index's digits and contains no `{` |
| Naming.BaseNamesDistinct | main.go:94-110 | base names of different kinds or indices differ and contain no `{` |
| FakeMetrics.Count | main.go:94 | how many times a loop `for i := 0; i < n; i++` runs: n, or 0 when n is at or below 0 |
| FakeMetrics.Ids | main.go:94-95 | the identities of the first n metrics of a kind, the j-th rendered in its own iteration order; there are `Count(n)` of them |
| FakeMetrics.IdsDistinct | main.go:94-97 | the identities of one kind are pairwise distinct, however each was rendered |
| FakeMetrics.IdsDisjoint | main.go:92-112 | identities of different kinds never coincide |
| FakeMetrics.IdsCanonicalForOneLabel | main.go:130-140 | with at most one label the identities of a kind do not depend on the iteration orders |
| FakeMetrics.CreatedIdsSeparate | main.go:92-112 | the identities createMetrics renders are distinct within each kind and disjoint across kinds |
| FakeMetrics.PassIdsSeparate | main.go:114-128 | the counters and histograms of one pass are distinct and disjoint |
| FakeMetrics.Increments | main.go:118 | each increment `rand.Intn(10) + 1` lies in `[1, 10]` |
| Metrics.AcceptsCounter | main.go:119 | `GetOrCreateCounter` does not panic: the identity is free or already holds a counter |
| Metrics.AcceptsHistogram | main.go:126 | `GetOrCreateHistogram` does not panic: the identity is free or already holds a histogram |
| Metrics.CounterTotal | main.go:119 | the total `Add` starts from: the counter's total, or 0 for the counter get-or-create creates |
| Metrics.HistogramCount | main.go:126 | the observation count `Update` starts from: the histogram's count, or 0 for the histogram get-or-create creates |
| Metrics.Registry.NewCounter | main.go:96 | registers a fresh counter at zero and changes nothing else |
| Metrics.Registry.NewGauge | main.go:102-104 | registers a fresh gauge and changes nothing else |
| Metrics.Registry.NewHistogram | main.go:110 | registers a fresh histogram with no observations and changes nothing else |
| Metrics.Registry.AddToCounter | main.go:119 | get-or-create then `Add`: the counter's total (0 when absent) grows by the delta; nothing else changes |
| Metrics.Registry.ObserveHistogram | main.go:126 | get-or-create then `Update`: the histogram gains one observation; nothing else changes |
| Metrics.Registered | main.go:93-111 | the registry after registering a sequence of identities in turn with one initial value |
| Metrics.Added | main.go:116-120 | the registry after get-or-create and `Add` on a sequence of counters in turn |
| Metrics.Observed | main.go:124-127 | the registry after get-or-create and one observation on a sequence of histograms in turn |
| Metrics.RegisteredEffect | main.go:94-97 | registering adds exactly the given identities with the initial value and keeps every other entry |
| Metrics.RegisteredSize | main.go:94-97 | registering distinct fresh identities grows the registry by their number |
| Metrics.AddedAt | main.go:116-120 | after adding to distinct counters, counter `ids[j]` is its old total plus `deltas[j]` |
| Metrics.AddedOther | main.go:116-120 | adding to other counters leaves an identity as it was, or absent |
| Metrics.ObservedAt | main.go:124-127 | after observing distinct histograms, `ids[j]` has one more observation |
| Metrics.ObservedOther | main.go:124-127 | observing other histograms leaves an identity as it was, or absent |
| Metrics.AddedKeepsAccepts | main.go:119 | adding to counters never makes a later counter get-or-create panic |
| Metrics.ObservedKeepsAccepts | main.go:126 | observing histograms never makes a later histogram get-or-create panic |
| Metrics.RegisterAll | main.go:92-112 | the registry after registering counters, then gauges, then histograms |
| Metrics.RegisterAllAcceptsCounter | main.go:92-119 | after the registration loops, a counter get-or-create at an identity that was free and is no registered gauge or histogram does not panic |
| Metrics.RegisterAllAcceptsHistogram | main.go:92-126 | after the registration loops, a histogram get-or-create at an identity that was free and is no registered counter or gauge does not panic |
| Metrics.RegisterAllKeys | main.go:92-112 | after the three registration loops the keys are the old keys plus the counter, gauge and histogram identities |
| Metrics.RegisterAllValues | main.go:92-112 | with fresh, disjoint identities, each holds its kind's initial value and old entries are kept |
| Metrics.RegisterAllSize | main.go:92-112 | with fresh, distinct, disjoint identities the registry grows by the sum of their numbers |
| Metrics.Pass | main.go:114-128 | the registry after one pass: every counter get-or-created and added to, then every histogram observed |
| Metrics.PassCounterAt | main.go:116-120 | in a pass, counter `cids[j]` grows by its delta |
| Metrics.PassHistogramAt | main.go:124-127 | in a pass, histogram `hids[j]` gains one observation |
| Metrics.PassOther | main.go:114-128 | a pass leaves every identity outside its counters and histograms as it was, or absent |
| Metrics.PassKeys | main.go:114-128 | after a pass the keys are the old keys plus the pass's counters and histograms |
| Metrics.PassAfterRegisterAllKeys | main.go:114-128 | a pass over exactly the registered identities adds no key |
| Metrics.PassAfterRegisterAllCounters | main.go:116-120 | a pass right after registration leaves each counter holding its delta |
| Metrics.PassAfterRegisterAllHistograms | main.go:124-127 | a pass right after registration leaves each histogram with one observation |
| FakeMetrics.Generator.RegisterCounters | main.go:94-97 | the counter loop registers each rendered `counter_i` at zero, in order |
| FakeMetrics.Generator.RegisterGauges | main.go:100-105 | the gauge loop registers each rendered `gauge_i`, in order |
| FakeMetrics.Generator.RegisterHistograms | main.go:108-111 | the histogram loop registers each rendered `histogram_i` with no observations, in order |
| FakeMetrics.AfterCreate | main.go:92-112 | the registry createMetrics produces: the rendered counters, gauges and histograms registered in that order |
| FakeMetrics.Generator.CreateMetrics | main.go:92-112 | the registry becomes `AfterCreate`: counters, then gauges, then histograms registered |
| FakeMetrics.CreateEffect | main.go:92-112 | createMetrics adds exactly the counter, gauge and histogram identities for indices below each count (none for a count at or below 0) at their initial values, keeps every old entry and grows the registry by the sum of the counts |
| FakeMetrics.Generator.AddToCounters | main.go:116-121 | the counter loop adds `draws[i] + 1` to each rendered `counter_i`, in order |
| FakeMetrics.Generator.ObserveHistograms | main.go:124-127 | the histogram loop observes each rendered `histogram_i` once, in order |
| FakeMetrics.UpdatePass | main.go:114-128 | the registry one updateMetrics pass produces, with increments `draws[i] + 1` |
| FakeMetrics.Generator.UpdateMetrics | main.go:114-128 | the registry becomes `UpdatePass` of the old registry |
| FakeMetrics.UpdatePassCounters | main.go:116-120 | every counter of a pass is present and grows by `draws[j] + 1`, between 1 and 10 |
| FakeMetrics.UpdatePassHistograms | main.go:124-127 | every histogram of a pass is present and gains exactly one observation |
| FakeMetrics.UpdatePassFrame | main.go:114-128 | a pass adds no other key and changes no other entry |
| FakeMetrics.GaugesUntouched | main.go:114-128 | a pass leaves every gauge identity as it was |
| FakeMetrics.UpdatePassCanonical | main.go:130-140 | with at most one label a pass does not depend on the iteration orders |
| FakeMetrics.PassAfterCreateAddsNothing | main.go:62-75 | with at most one label, a pass after createMetrics adds no series |
| FakeMetrics.PassAfterCreateCounters | main.go:62-75 | with at most one label, after createMetrics and one pass each counter holds its first increment |
| FakeMetrics.PassAfterCreateHistograms | main.go:62-75 | with at most one label, after createMetrics and one pass each histogram has one observation |
| FakeMetrics.CreateEnablesPass | main.go:62-75 | right after createMetrics, every counter and histogram the first pass renders, in any label orders (Go picks a new map order on every range), finds a metric of its own kind or nothing, so a tick after `Start` cannot panic |
| FakeMetrics.PassKeepsAccepts | main.go:72-79 | a pass keeps every later get-or-create of a counter or histogram safe, whatever orders the next pass renders in; with `CreateEnablesPass` this covers `Start` followed by any number of ticks |
| FakeMetrics.OtherOrderAddsSeries | main.go:114-119 | with the two test labels, a pass that walks a counter's labels in the other order registers a second series: its identity differs from the created one, was absent after createMetrics and is present after the pass |
| FakeMetrics.Generator.Start | main.go:62-84 | only a created generator starts; it creates the metrics and becomes started |
| FakeMetrics.Generator.Tick | main.go:72-79 | a tick reaches only a started generator with updates enabled, and runs one update pass |
| FakeMetrics.Generator.Stop | main.go:87-90 | a generator that is not yet stopped becomes stopped; stopping twice is excluded |
| Lifecycle.Next | main.go:62-90 | one step of the lifecycle: `Start` only from a created generator, a tick only while started with updates enabled, `Stop` only before stopping |
| Lifecycle.Run | main.go:62-90 | the phase after a whole trace of events, or none when some step is not permitted |
| Lifecycle.RunAppend | main.go:62-90 | running a concatenated trace is running its halves in turn |
| Lifecycle.NoPassesWhenDisabled | main.go:65-83 | with updates disabled no permitted trace contains an update pass |
| Lifecycle.StoppedIsFinal | main.go:87-90 | no event is permitted once stopped |
| Lifecycle.NoPassAfterStop | main.go:72-78 | after `Stop` the trace ends: no further update pass or other event occurs |
| Lifecycle.StopAtMostOnce | main.go:88 | a trace that stops twice is not permitted |
| Lifecycle.PassNeedsStart | main.go:62-80 | starting from a fresh generator, an update pass needs an earlier `Start` and updates enabled |
| Lifecycle.PassesCountsTick | main.go:74-75 | a trace with a tick performs at least one update pass |

## Left out

- The goroutine, `time.Ticker`, the `select` on the stop channel and `sync.WaitGroup` (main.go:66-80, 88-89) are concurrency. They appear only as the sequential event traces of `Lifecycle` and the `Tick` method.
- `golang.org/x/exp/rand` is a source of randomness. Its draws are parameters with range preconditions.
- Floating-point values are not modelled: gauge callback results (main.go:102-104) and histogram sums and buckets (main.go:126).
- The registry library's internals and its Prometheus text export belong to a foreign library. The registry is an abstract map.
- The `fmt.Println` notice (main.go:82) is output only.
- `example/example.go` is HTTP server setup with no logic of its own, and is not part of this model.
- Metrics.Registry.ObserveHistogram: records one observation but not the observed value, because values are floating point.
- Metrics.Registry.AddToCounter: totals are unbounded naturals, so the library's 64-bit counter overflow is not modelled. With at most 10 per pass it is far out of reach.
- FakeMetrics.Generator.Start: does not launch the goroutine. Each tick of the goroutine is a separate `Tick` call.
- FakeMetrics.Generator.Start: a `Start` after `Stop`, and a second `Start`, are treated as misuse. The program accepts both when no panic follows. After `Stop`, createMetrics registers and the goroutine returns on the closed channel. A second `Start` with every count at or below 0 registers nothing twice. The model requires a freshly created generator.
- FakeMetrics.Generator.Stop: does not model waiting for the goroutine to finish. After it returns no further tick is permitted.
- Go's `int` counts are unbounded integers here. Loops over counts beyond 64 bits are not a concern of the source.
- Two registry panics are preconditions, not modelled error paths: a duplicate registration, and a get-or-create that finds another kind. The program has no error path for them; it stops.
- Metrics.Registry.NewCounter: accepts any identity string. The library's metric-name validation, which panics on a malformed name, is not modelled. For a prefix, metric name or label the library rejects, `Start` succeeds in the model where the program would panic.
- Metrics.Registry.NewGauge: accepts any identity string; the library's metric-name validation is not modelled.
- Metrics.Registry.NewHistogram: accepts any identity string; the library's metric-name validation is not modelled.
- Metrics.Registry.AddToCounter: the create path of get-or-create does not validate the name as the library does.
- Metrics.Registry.ObserveHistogram: the create path of get-or-create does not validate the name as the library does.
- FakeMetrics.Generator.New: `New` (main.go:32) copies the configuration struct but shares the caller's `Labels` map. A caller who later mutates that map changes the identities rendered afterwards. `Config` is a value here, so this aliasing is not captured.
