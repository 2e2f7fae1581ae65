/**
 * The fake metrics generator: its configuration and defaults, the metric
 * identities it creates, and the update pass its background task runs on
 * every tick.
 *
 * The process-wide registry is passed in as a `Registry` object. Every
 * rendering of an identity walks the label map in its own iteration order, and
 * every counter increment comes from a random draw; both are parameters of the
 * methods that need them.
 */
module FakeMetrics {
  import opened Wrappers
  import opened Naming
  import opened Metrics
  import opened Lifecycle

  /** time.Second, in nanoseconds (a time.Duration counts nanoseconds). */
  const Second: int := 1_000_000_000

  const DefaultPrefix: string := "fake_"
  const DefaultCount: int := 10
  const DefaultInterval: int := 2 * Second
  const DefaultLabels: map<string, string> := map["environment" := "lazy"]

  /** The generation parameters. `labels` is None for a nil map, which is not the same as an empty one. */
  datatype Config = Config(
    metricPrefix: string,
    numCounters: int,
    numGauges: int,
    numHistograms: int,
    updateInterval: int,
    labels: Option<map<string, string>>,
    updateMetrics: bool)

  /** The label map as buildName ranges over it: a nil map has no entries. */
  function LabelsOf(cfg: Config): map<string, string> {
    match cfg.labels
    case None => map[]
    case Some(m) => m
  }

  /** No field that has a default is left at its zero value. */
  predicate IsResolved(cfg: Config) {
    && cfg.metricPrefix != ""
    && cfg.numCounters != 0
    && cfg.numGauges != 0
    && cfg.numHistograms != 0
    && cfg.updateInterval != 0
    && cfg.labels.Some?
  }

  /**
   * `r` is `cfg` with exactly its zero-valued fields replaced by their defaults;
   * `updateMetrics` is never defaulted.
   */
  predicate DefaultsApplied(cfg: Config, r: Config) {
    && (cfg.metricPrefix == "" ==> r.metricPrefix == DefaultPrefix)
    && (cfg.metricPrefix != "" ==> r.metricPrefix == cfg.metricPrefix)
    && (cfg.numCounters == 0 ==> r.numCounters == DefaultCount)
    && (cfg.numCounters != 0 ==> r.numCounters == cfg.numCounters)
    && (cfg.numGauges == 0 ==> r.numGauges == DefaultCount)
    && (cfg.numGauges != 0 ==> r.numGauges == cfg.numGauges)
    && (cfg.numHistograms == 0 ==> r.numHistograms == DefaultCount)
    && (cfg.numHistograms != 0 ==> r.numHistograms == cfg.numHistograms)
    && (cfg.updateInterval == 0 ==> r.updateInterval == DefaultInterval)
    && (cfg.updateInterval != 0 ==> r.updateInterval == cfg.updateInterval)
    && (cfg.labels.None? ==> r.labels == Some(DefaultLabels))
    && (cfg.labels.Some? ==> r.labels == cfg.labels)
    && r.updateMetrics == cfg.updateMetrics
  }

  /** The defaulting New performs on its copy of the configuration. */
  method ApplyDefaults(cfg: Config) returns (r: Config)
    ensures DefaultsApplied(cfg, r)
    ensures IsResolved(r)
    ensures IsResolved(cfg) ==> r == cfg
  {
    r := cfg;
    if r.metricPrefix == "" {
      r := r.(metricPrefix := DefaultPrefix);
    }
    if r.numCounters == 0 {
      r := r.(numCounters := DefaultCount);
    }
    if r.numGauges == 0 {
      r := r.(numGauges := DefaultCount);
    }
    if r.numHistograms == 0 {
      r := r.(numHistograms := DefaultCount);
    }
    if r.updateInterval == 0 {
      r := r.(updateInterval := DefaultInterval);
    }
    if r.labels.None? {
      r := r.(labels := Some(DefaultLabels));
    }
  }

  /** Defaulting determines its result. */
  lemma DefaultsAppliedUnique(cfg: Config, r1: Config, r2: Config)
    requires DefaultsApplied(cfg, r1) && DefaultsApplied(cfg, r2)
    ensures r1 == r2
  {
  }

  /** Defaulting is idempotent: applied to its own result it changes nothing. */
  lemma DefaultsIdempotent(cfg: Config, r: Config, r2: Config)
    requires DefaultsApplied(cfg, r) && DefaultsApplied(r, r2)
    ensures r2 == r && IsResolved(r)
  {
  }

  /** A configuration is left unchanged by defaulting exactly when it is resolved. */
  lemma DefaultsFixpoint(cfg: Config)
    ensures DefaultsApplied(cfg, cfg) <==> IsResolved(cfg)
  {
  }

  /** The zero configuration of fakemetrics_test.go:26 resolves to the `fake_` defaults, not `app_`. */
  lemma DefaultsOfZeroConfig(r: Config)
    requires DefaultsApplied(Config("", 0, 0, 0, 0, None, false), r)
    ensures r == Config("fake_", 10, 10, 10, 2_000_000_000, Some(map["environment" := "lazy"]), false)
    ensures r.metricPrefix != "app_"
  {
  }

  /**
   * A non-nil empty label map is kept, so every identity is the bare
   * `prefix + name` (fakemetrics_test.go:93-98).
   */
  lemma EmptyLabelsKept(cfg: Config, r: Config, metricName: string, order: seq<string>)
    requires cfg.labels == Some(map[]) && DefaultsApplied(cfg, r)
    requires IsOrderOf(order, LabelsOf(r))
    ensures LabelsOf(r) == map[]
    ensures Identity(r.metricPrefix, metricName, LabelsOf(r), order) == r.metricPrefix + metricName
  {
    IdentityWithoutLabels(r.metricPrefix, metricName, LabelsOf(r), order);
  }

  /** How many times a Go loop `for i := 0; i < n; i++` runs. */
  function Count(n: int): nat {
    if n < 0 then 0 else n
  }

  /** `orders` supplies an iteration order of the labels for each of `n` renderings. */
  predicate OrdersFor(cfg: Config, n: int, orders: seq<seq<string>>) {
    && |orders| >= Count(n)
    && forall j :: 0 <= j < |orders| ==> IsOrderOf(orders[j], LabelsOf(cfg))
  }

  /** The identities of the first `n` metrics of a kind, the j-th rendered in `orders[j]`. */
  function Ids(cfg: Config, kind: Kind, n: int, orders: seq<seq<string>>): (ids: seq<string>)
    requires OrdersFor(cfg, n, orders)
    ensures |ids| == Count(n)
  {
    seq(Count(n), j requires 0 <= j < Count(n) =>
      Identity(cfg.metricPrefix, BaseName(kind, j), LabelsOf(cfg), orders[j]))
  }

  /**
   * `ids` lists the identities of the first `n` metrics of a kind, the j-th
   * rendered in `orders[j]`: what the loops of createMetrics and updateMetrics
   * compute one at a time. Each element is only unfolded for a rendering in hand.
   */
  predicate Rendered(cfg: Config, kind: Kind, n: int, orders: seq<seq<string>>, ids: seq<string>)
    requires OrdersFor(cfg, n, orders)
  {
    && |ids| == Count(n)
    && forall j {:trigger Identity(cfg.metricPrefix, BaseName(kind, j), LabelsOf(cfg), orders[j])} ::
         0 <= j < |ids| ==> ids[j] == Identity(cfg.metricPrefix, BaseName(kind, j), LabelsOf(cfg), orders[j])
  }

  /** `Ids` is such a list. */
  lemma IdsRendered(cfg: Config, kind: Kind, n: int, orders: seq<seq<string>>)
    requires OrdersFor(cfg, n, orders)
    ensures Rendered(cfg, kind, n, orders, Ids(cfg, kind, n, orders))
  {
  }

  /** The identities of one kind are pairwise distinct, however each was rendered. */
  lemma IdsDistinct(cfg: Config, kind: Kind, n: int, orders: seq<seq<string>>)
    requires OrdersFor(cfg, n, orders)
    ensures Distinct(Ids(cfg, kind, n, orders))
  {
    var ids := Ids(cfg, kind, n, orders);
    forall i, j | 0 <= i < j < |ids| ensures ids[i] != ids[j] {
      BaseNamesDistinct(kind, i, kind, j);
      IdentityInjective(cfg.metricPrefix, BaseName(kind, i), BaseName(kind, j), LabelsOf(cfg), orders[i], orders[j]);
    }
  }

  /** Identities of different kinds never coincide. */
  lemma IdsDisjoint(cfg: Config, k1: Kind, n1: int, o1: seq<seq<string>>, k2: Kind, n2: int, o2: seq<seq<string>>)
    requires k1 != k2 && OrdersFor(cfg, n1, o1) && OrdersFor(cfg, n2, o2)
    ensures Disjoint(Ids(cfg, k1, n1, o1), Ids(cfg, k2, n2, o2))
  {
    var a := Ids(cfg, k1, n1, o1);
    var b := Ids(cfg, k2, n2, o2);
    forall i, j | 0 <= i < Count(n1) && 0 <= j < Count(n2) ensures a[i] != b[j] {
      BaseNamesDistinct(k1, i, k2, j);
      IdentityInjective(cfg.metricPrefix, BaseName(k1, i), BaseName(k2, j), LabelsOf(cfg), o1[i], o2[j]);
    }
  }

  /** With at most one label every rendering of an identity is the same string. */
  lemma IdsCanonicalForOneLabel(cfg: Config, kind: Kind, n: int, o1: seq<seq<string>>, o2: seq<seq<string>>)
    requires OrdersFor(cfg, n, o1) && OrdersFor(cfg, n, o2)
    requires |LabelsOf(cfg)| <= 1
    ensures Ids(cfg, kind, n, o1) == Ids(cfg, kind, n, o2)
  {
    var a := Ids(cfg, kind, n, o1);
    var b := Ids(cfg, kind, n, o2);
    forall j | 0 <= j < Count(n) ensures a[j] == b[j] {
      IdentityCanonicalForOneLabel(cfg.metricPrefix, BaseName(kind, j), LabelsOf(cfg), o1[j], o2[j]);
    }
  }

  /** The registry after createMetrics: counters, then gauges, then histograms are registered. */
  function AfterCreate(cfg: Config, m: Entries, co: seq<seq<string>>, go: seq<seq<string>>, ho: seq<seq<string>>): Entries
    requires OrdersFor(cfg, cfg.numCounters, co)
    requires OrdersFor(cfg, cfg.numGauges, go)
    requires OrdersFor(cfg, cfg.numHistograms, ho)
  {
    RegisterAll(m, Ids(cfg, CounterKind, cfg.numCounters, co), Ids(cfg, GaugeKind, cfg.numGauges, go),
                Ids(cfg, HistogramKind, cfg.numHistograms, ho))
  }

  /** Each draw is a value of rand.Intn(10). */
  predicate ValidDraws(n: int, draws: seq<int>) {
    && |draws| >= Count(n)
    && forall j :: 0 <= j < |draws| ==> 0 <= draws[j] < 10
  }

  /** The counter increments `rand.Intn(10) + 1` made from the draws. */
  function Increments(draws: seq<int>): (deltas: seq<nat>)
    requires forall j :: 0 <= j < |draws| ==> 0 <= draws[j] < 10
    ensures |deltas| == |draws|
    ensures forall j :: 0 <= j < |draws| ==> 1 <= deltas[j] <= 10
  {
    seq(|draws|, j requires 0 <= j < |draws| => draws[j] + 1)
  }

  /**
   * The registry after one update pass: every counter is incremented, then every
   * histogram observed. This is meaningful only where every counter and histogram
   * of the pass passes `AcceptsCounter` or `AcceptsHistogram`, as `UpdateMetrics`
   * requires. `CreateEnablesPass` and `PassKeepsAccepts` show that this holds
   * after createMetrics and after every pass.
   */
  function UpdatePass(cfg: Config, m: Entries, co: seq<seq<string>>, ho: seq<seq<string>>, draws: seq<int>): Entries
    requires OrdersFor(cfg, cfg.numCounters, co)
    requires OrdersFor(cfg, cfg.numHistograms, ho)
    requires ValidDraws(cfg.numCounters, draws)
  {
    Pass(m, Ids(cfg, CounterKind, cfg.numCounters, co), Ids(cfg, HistogramKind, cfg.numHistograms, ho), Increments(draws))
  }

  /**
   * createMetrics registers exactly the `counter_i`, `gauge_i` and `histogram_i`
   * identities for i below the respective count, at their initial values,
   * keeps every existing entry, and grows the registry by the sum of the counts
   * (a count at or below 0 registers nothing of its kind).
   */
  lemma CreateEffect(cfg: Config, m: Entries, co: seq<seq<string>>, go: seq<seq<string>>, ho: seq<seq<string>>)
    requires OrdersFor(cfg, cfg.numCounters, co)
    requires OrdersFor(cfg, cfg.numGauges, go)
    requires OrdersFor(cfg, cfg.numHistograms, ho)
    requires Unregistered(m, Ids(cfg, CounterKind, cfg.numCounters, co))
    requires Unregistered(m, Ids(cfg, GaugeKind, cfg.numGauges, go))
    requires Unregistered(m, Ids(cfg, HistogramKind, cfg.numHistograms, ho))
    ensures var r := AfterCreate(cfg, m, co, go, ho);
      var cids := Ids(cfg, CounterKind, cfg.numCounters, co);
      var gids := Ids(cfg, GaugeKind, cfg.numGauges, go);
      var hids := Ids(cfg, HistogramKind, cfg.numHistograms, ho);
      && (forall id :: id in r <==> id in m || id in cids || id in gids || id in hids)
      && (forall id :: id in m ==> r[id] == m[id])
      && (forall j :: 0 <= j < |cids| ==> r[cids[j]] == Counter(0))
      && (forall j :: 0 <= j < |gids| ==> r[gids[j]] == Gauge)
      && (forall j :: 0 <= j < |hids| ==> r[hids[j]] == Histogram(0))
      && |r| == |m| + Count(cfg.numCounters) + Count(cfg.numGauges) + Count(cfg.numHistograms)
  {
    CreatedIdsSeparate(cfg, co, go, ho);
    var cids := Ids(cfg, CounterKind, cfg.numCounters, co);
    var gids := Ids(cfg, GaugeKind, cfg.numGauges, go);
    var hids := Ids(cfg, HistogramKind, cfg.numHistograms, ho);
    RegisterAllKeys(m, cids, gids, hids);
    RegisterAllValues(m, cids, gids, hids);
    RegisterAllSize(m, cids, gids, hids);
  }

  /** The identities of one pass are distinct, and no counter shares one with a histogram. */
  lemma PassIdsSeparate(cfg: Config, co: seq<seq<string>>, ho: seq<seq<string>>)
    requires OrdersFor(cfg, cfg.numCounters, co)
    requires OrdersFor(cfg, cfg.numHistograms, ho)
    ensures var cids := Ids(cfg, CounterKind, cfg.numCounters, co);
      var hids := Ids(cfg, HistogramKind, cfg.numHistograms, ho);
      Distinct(cids) && Distinct(hids) && Disjoint(cids, hids)
  {
    IdsDistinct(cfg, CounterKind, cfg.numCounters, co);
    IdsDistinct(cfg, HistogramKind, cfg.numHistograms, ho);
    IdsDisjoint(cfg, CounterKind, cfg.numCounters, co, HistogramKind, cfg.numHistograms, ho);
  }

  /**
   * In one update pass every counter rendered in the pass is get-or-created and
   * grows by its increment `draws[j] + 1`, which lies between 1 and 10.
   */
  lemma UpdatePassCounters(cfg: Config, m: Entries, co: seq<seq<string>>, ho: seq<seq<string>>, draws: seq<int>)
    requires OrdersFor(cfg, cfg.numCounters, co)
    requires OrdersFor(cfg, cfg.numHistograms, ho)
    requires ValidDraws(cfg.numCounters, draws)
    ensures var r := UpdatePass(cfg, m, co, ho, draws);
      var cids := Ids(cfg, CounterKind, cfg.numCounters, co);
      && (forall j :: 0 <= j < |cids| ==> cids[j] in r && r[cids[j]] == Counter(CounterTotal(m, cids[j]) + draws[j] + 1))
      && (forall j :: 0 <= j < |cids| ==>
            CounterTotal(m, cids[j]) + 1 <= CounterTotal(r, cids[j]) <= CounterTotal(m, cids[j]) + 10)
  {
    var cids := Ids(cfg, CounterKind, cfg.numCounters, co);
    var hids := Ids(cfg, HistogramKind, cfg.numHistograms, ho);
    PassIdsSeparate(cfg, co, ho);
    var deltas := Increments(draws);
    forall j | 0 <= j < |cids|
      ensures cids[j] in Pass(m, cids, hids, deltas)
      ensures Pass(m, cids, hids, deltas)[cids[j]] == Counter(CounterTotal(m, cids[j]) + draws[j] + 1)
    {
      assert cids[j] !in hids;
      PassCounterAt(m, cids, hids, deltas, j);
    }
  }

  /** In one update pass every histogram rendered in the pass is get-or-created and gains exactly one observation. */
  lemma UpdatePassHistograms(cfg: Config, m: Entries, co: seq<seq<string>>, ho: seq<seq<string>>, draws: seq<int>)
    requires OrdersFor(cfg, cfg.numCounters, co)
    requires OrdersFor(cfg, cfg.numHistograms, ho)
    requires ValidDraws(cfg.numCounters, draws)
    ensures var r := UpdatePass(cfg, m, co, ho, draws);
      var hids := Ids(cfg, HistogramKind, cfg.numHistograms, ho);
      forall j :: 0 <= j < |hids| ==> hids[j] in r && r[hids[j]] == Histogram(HistogramCount(m, hids[j]) + 1)
  {
    var cids := Ids(cfg, CounterKind, cfg.numCounters, co);
    var hids := Ids(cfg, HistogramKind, cfg.numHistograms, ho);
    var deltas := Increments(draws);
    PassIdsSeparate(cfg, co, ho);
    forall j | 0 <= j < |hids|
      ensures hids[j] in Pass(m, cids, hids, deltas)
      ensures Pass(m, cids, hids, deltas)[hids[j]] == Histogram(HistogramCount(m, hids[j]) + 1)
    {
      assert hids[j] !in cids;
      PassHistogramAt(m, cids, hids, deltas, j);
    }
  }

  /** An update pass changes no entry other than the counters and histograms it renders, and adds no other. */
  lemma UpdatePassFrame(cfg: Config, m: Entries, co: seq<seq<string>>, ho: seq<seq<string>>, draws: seq<int>)
    requires OrdersFor(cfg, cfg.numCounters, co)
    requires OrdersFor(cfg, cfg.numHistograms, ho)
    requires ValidDraws(cfg.numCounters, draws)
    ensures var r := UpdatePass(cfg, m, co, ho, draws);
      var cids := Ids(cfg, CounterKind, cfg.numCounters, co);
      var hids := Ids(cfg, HistogramKind, cfg.numHistograms, ho);
      && (forall id :: id !in cids && id !in hids ==> (id in r <==> id in m))
      && (forall id :: id in m && id !in cids && id !in hids ==> r[id] == m[id])
  {
    var cids := Ids(cfg, CounterKind, cfg.numCounters, co);
    var hids := Ids(cfg, HistogramKind, cfg.numHistograms, ho);
    var deltas := Increments(draws);
    forall id | id !in cids && id !in hids
      ensures id in Pass(m, cids, hids, deltas) <==> id in m
      ensures id in m ==> Pass(m, cids, hids, deltas)[id] == m[id]
    {
      PassOther(m, cids, hids, deltas, id);
    }
  }

  /** Gauges are left alone by an update pass: their values come from the registry's callback. */
  lemma GaugesUntouched(cfg: Config, m: Entries, co: seq<seq<string>>, go: seq<seq<string>>, ho: seq<seq<string>>, draws: seq<int>)
    requires OrdersFor(cfg, cfg.numCounters, co)
    requires OrdersFor(cfg, cfg.numGauges, go)
    requires OrdersFor(cfg, cfg.numHistograms, ho)
    requires ValidDraws(cfg.numCounters, draws)
    ensures var r := UpdatePass(cfg, m, co, ho, draws);
      var gids := Ids(cfg, GaugeKind, cfg.numGauges, go);
      forall j :: 0 <= j < |gids| ==> (gids[j] in r <==> gids[j] in m) && (gids[j] in m ==> r[gids[j]] == m[gids[j]])
  {
    var cids := Ids(cfg, CounterKind, cfg.numCounters, co);
    var gids := Ids(cfg, GaugeKind, cfg.numGauges, go);
    var hids := Ids(cfg, HistogramKind, cfg.numHistograms, ho);
    UpdatePassFrame(cfg, m, co, ho, draws);
    IdsDisjoint(cfg, CounterKind, cfg.numCounters, co, GaugeKind, cfg.numGauges, go);
    IdsDisjoint(cfg, GaugeKind, cfg.numGauges, go, HistogramKind, cfg.numHistograms, ho);
    assert forall j :: 0 <= j < |gids| ==> gids[j] !in cids && gids[j] !in hids;
  }

  /** The identities createMetrics renders are distinct within each kind and across kinds. */
  lemma CreatedIdsSeparate(cfg: Config, co: seq<seq<string>>, go: seq<seq<string>>, ho: seq<seq<string>>)
    requires OrdersFor(cfg, cfg.numCounters, co)
    requires OrdersFor(cfg, cfg.numGauges, go)
    requires OrdersFor(cfg, cfg.numHistograms, ho)
    ensures var cids := Ids(cfg, CounterKind, cfg.numCounters, co);
      var gids := Ids(cfg, GaugeKind, cfg.numGauges, go);
      var hids := Ids(cfg, HistogramKind, cfg.numHistograms, ho);
      && Distinct(cids) && Distinct(gids) && Distinct(hids)
      && Disjoint(cids, gids) && Disjoint(cids, hids) && Disjoint(gids, hids)
  {
    IdsDistinct(cfg, CounterKind, cfg.numCounters, co);
    IdsDistinct(cfg, GaugeKind, cfg.numGauges, go);
    IdsDistinct(cfg, HistogramKind, cfg.numHistograms, ho);
    IdsDisjoint(cfg, CounterKind, cfg.numCounters, co, GaugeKind, cfg.numGauges, go);
    IdsDisjoint(cfg, CounterKind, cfg.numCounters, co, HistogramKind, cfg.numHistograms, ho);
    IdsDisjoint(cfg, GaugeKind, cfg.numGauges, go, HistogramKind, cfg.numHistograms, ho);
  }

  /** With at most one label, an update pass does not depend on the iteration orders it renders in. */
  lemma UpdatePassCanonical(cfg: Config, m: Entries, co: seq<seq<string>>, ho: seq<seq<string>>,
                            co2: seq<seq<string>>, ho2: seq<seq<string>>, draws: seq<int>)
    requires OrdersFor(cfg, cfg.numCounters, co) && OrdersFor(cfg, cfg.numCounters, co2)
    requires OrdersFor(cfg, cfg.numHistograms, ho) && OrdersFor(cfg, cfg.numHistograms, ho2)
    requires ValidDraws(cfg.numCounters, draws)
    requires |LabelsOf(cfg)| <= 1
    ensures UpdatePass(cfg, m, co2, ho2, draws) == UpdatePass(cfg, m, co, ho, draws)
  {
    IdsCanonicalForOneLabel(cfg, CounterKind, cfg.numCounters, co, co2);
    IdsCanonicalForOneLabel(cfg, HistogramKind, cfg.numHistograms, ho, ho2);
  }

  /**
   * With at most one label (the default `environment="lazy"` among them) a pass
   * right after createMetrics adds no series: it lands on the created ones.
   */
  lemma PassAfterCreateAddsNothing(cfg: Config, m: Entries, co: seq<seq<string>>, go: seq<seq<string>>, ho: seq<seq<string>>,
                                co2: seq<seq<string>>, ho2: seq<seq<string>>, draws: seq<int>)
    requires OrdersFor(cfg, cfg.numCounters, co) && OrdersFor(cfg, cfg.numCounters, co2)
    requires OrdersFor(cfg, cfg.numGauges, go)
    requires OrdersFor(cfg, cfg.numHistograms, ho) && OrdersFor(cfg, cfg.numHistograms, ho2)
    requires ValidDraws(cfg.numCounters, draws)
    requires |LabelsOf(cfg)| <= 1
    requires Unregistered(m, Ids(cfg, CounterKind, cfg.numCounters, co))
    requires Unregistered(m, Ids(cfg, GaugeKind, cfg.numGauges, go))
    requires Unregistered(m, Ids(cfg, HistogramKind, cfg.numHistograms, ho))
    ensures var c := AfterCreate(cfg, m, co, go, ho);
      UpdatePass(cfg, c, co2, ho2, draws).Keys == c.Keys
  {
    var c := AfterCreate(cfg, m, co, go, ho);
    UpdatePassCanonical(cfg, c, co, ho, co2, ho2, draws);
    CreatedIdsSeparate(cfg, co, go, ho);
    var cids := Ids(cfg, CounterKind, cfg.numCounters, co);
    var gids := Ids(cfg, GaugeKind, cfg.numGauges, go);
    var hids := Ids(cfg, HistogramKind, cfg.numHistograms, ho);
    PassAfterRegisterAllKeys(m, cids, gids, hids, Increments(draws));
  }

  /** With at most one label, right after createMetrics a pass leaves each counter holding its first increment. */
  lemma PassAfterCreateCounters(cfg: Config, m: Entries, co: seq<seq<string>>, go: seq<seq<string>>, ho: seq<seq<string>>,
                                co2: seq<seq<string>>, ho2: seq<seq<string>>, draws: seq<int>)
    requires OrdersFor(cfg, cfg.numCounters, co) && OrdersFor(cfg, cfg.numCounters, co2)
    requires OrdersFor(cfg, cfg.numGauges, go)
    requires OrdersFor(cfg, cfg.numHistograms, ho) && OrdersFor(cfg, cfg.numHistograms, ho2)
    requires ValidDraws(cfg.numCounters, draws)
    requires |LabelsOf(cfg)| <= 1
    requires Unregistered(m, Ids(cfg, CounterKind, cfg.numCounters, co))
    requires Unregistered(m, Ids(cfg, GaugeKind, cfg.numGauges, go))
    requires Unregistered(m, Ids(cfg, HistogramKind, cfg.numHistograms, ho))
    ensures var r := UpdatePass(cfg, AfterCreate(cfg, m, co, go, ho), co2, ho2, draws);
      var cids := Ids(cfg, CounterKind, cfg.numCounters, co);
      forall j :: 0 <= j < |cids| ==> cids[j] in r && r[cids[j]] == Counter(draws[j] + 1)
  {
    var c := AfterCreate(cfg, m, co, go, ho);
    UpdatePassCanonical(cfg, c, co, ho, co2, ho2, draws);
    CreatedIdsSeparate(cfg, co, go, ho);
    var cids := Ids(cfg, CounterKind, cfg.numCounters, co);
    var gids := Ids(cfg, GaugeKind, cfg.numGauges, go);
    var hids := Ids(cfg, HistogramKind, cfg.numHistograms, ho);
    var deltas := Increments(draws);
    assert forall j :: 0 <= j < |cids| ==> deltas[j] == draws[j] + 1;
    PassAfterRegisterAllCounters(m, cids, gids, hids, deltas);
  }

  /** With at most one label, right after createMetrics a pass leaves each histogram with one observation. */
  lemma PassAfterCreateHistograms(cfg: Config, m: Entries, co: seq<seq<string>>, go: seq<seq<string>>, ho: seq<seq<string>>,
                                co2: seq<seq<string>>, ho2: seq<seq<string>>, draws: seq<int>)
    requires OrdersFor(cfg, cfg.numCounters, co) && OrdersFor(cfg, cfg.numCounters, co2)
    requires OrdersFor(cfg, cfg.numGauges, go)
    requires OrdersFor(cfg, cfg.numHistograms, ho) && OrdersFor(cfg, cfg.numHistograms, ho2)
    requires ValidDraws(cfg.numCounters, draws)
    requires |LabelsOf(cfg)| <= 1
    requires Unregistered(m, Ids(cfg, CounterKind, cfg.numCounters, co))
    requires Unregistered(m, Ids(cfg, GaugeKind, cfg.numGauges, go))
    requires Unregistered(m, Ids(cfg, HistogramKind, cfg.numHistograms, ho))
    ensures var r := UpdatePass(cfg, AfterCreate(cfg, m, co, go, ho), co2, ho2, draws);
      var hids := Ids(cfg, HistogramKind, cfg.numHistograms, ho);
      forall j :: 0 <= j < |hids| ==> hids[j] in r && r[hids[j]] == Histogram(1)
  {
    var c := AfterCreate(cfg, m, co, go, ho);
    UpdatePassCanonical(cfg, c, co, ho, co2, ho2, draws);
    CreatedIdsSeparate(cfg, co, go, ho);
    var cids := Ids(cfg, CounterKind, cfg.numCounters, co);
    var gids := Ids(cfg, GaugeKind, cfg.numGauges, go);
    var hids := Ids(cfg, HistogramKind, cfg.numHistograms, ho);
    var deltas := Increments(draws);
    PassAfterRegisterAllHistograms(m, cids, gids, hids, deltas);
  }

  /**
   * Right after createMetrics, get-or-create of every counter and histogram the
   * first pass renders finds a metric of its own kind or nothing, whatever
   * orders that pass walks the labels in (`co2`, `ho2`), so `Start` followed by
   * a tick cannot panic.
   */
  lemma CreateEnablesPass(cfg: Config, m: Entries, co: seq<seq<string>>, go: seq<seq<string>>, ho: seq<seq<string>>,
                          co2: seq<seq<string>>, ho2: seq<seq<string>>)
    requires OrdersFor(cfg, cfg.numCounters, co) && OrdersFor(cfg, cfg.numCounters, co2)
    requires OrdersFor(cfg, cfg.numGauges, go)
    requires OrdersFor(cfg, cfg.numHistograms, ho) && OrdersFor(cfg, cfg.numHistograms, ho2)
    requires Unregistered(m, Ids(cfg, CounterKind, cfg.numCounters, co))
    requires Unregistered(m, Ids(cfg, GaugeKind, cfg.numGauges, go))
    requires Unregistered(m, Ids(cfg, HistogramKind, cfg.numHistograms, ho))
    requires Unregistered(m, Ids(cfg, CounterKind, cfg.numCounters, co2))
    requires Unregistered(m, Ids(cfg, HistogramKind, cfg.numHistograms, ho2))
    ensures var c := AfterCreate(cfg, m, co, go, ho);
      && (forall j :: 0 <= j < Count(cfg.numCounters) ==> AcceptsCounter(c, Ids(cfg, CounterKind, cfg.numCounters, co2)[j]))
      && (forall j :: 0 <= j < Count(cfg.numHistograms) ==> AcceptsHistogram(c, Ids(cfg, HistogramKind, cfg.numHistograms, ho2)[j]))
  {
    CreatedIdsSeparate(cfg, co, go, ho);
    var cids := Ids(cfg, CounterKind, cfg.numCounters, co);
    var gids := Ids(cfg, GaugeKind, cfg.numGauges, go);
    var hids := Ids(cfg, HistogramKind, cfg.numHistograms, ho);
    var cids2 := Ids(cfg, CounterKind, cfg.numCounters, co2);
    var hids2 := Ids(cfg, HistogramKind, cfg.numHistograms, ho2);
    IdsDisjoint(cfg, CounterKind, cfg.numCounters, co2, GaugeKind, cfg.numGauges, go);
    IdsDisjoint(cfg, CounterKind, cfg.numCounters, co2, HistogramKind, cfg.numHistograms, ho);
    IdsDisjoint(cfg, CounterKind, cfg.numCounters, co, HistogramKind, cfg.numHistograms, ho2);
    IdsDisjoint(cfg, GaugeKind, cfg.numGauges, go, HistogramKind, cfg.numHistograms, ho2);
    forall j | 0 <= j < |cids2| ensures AcceptsCounter(RegisterAll(m, cids, gids, hids), cids2[j]) {
      RegisterAllAcceptsCounter(m, cids, gids, hids, cids2[j]);
    }
    forall j | 0 <= j < |hids2| ensures AcceptsHistogram(RegisterAll(m, cids, gids, hids), hids2[j]) {
      RegisterAllAcceptsHistogram(m, cids, gids, hids, hids2[j]);
    }
  }

  /**
   * An update pass keeps every later get-or-create safe: whatever orders the
   * next pass renders in (`co2`, `ho2`), a counter or histogram identity that
   * was safe before the pass is safe after it, so ticks can repeat.
   */
  lemma PassKeepsAccepts(cfg: Config, m: Entries, co: seq<seq<string>>, ho: seq<seq<string>>, draws: seq<int>,
                         co2: seq<seq<string>>, ho2: seq<seq<string>>)
    requires OrdersFor(cfg, cfg.numCounters, co) && OrdersFor(cfg, cfg.numCounters, co2)
    requires OrdersFor(cfg, cfg.numHistograms, ho) && OrdersFor(cfg, cfg.numHistograms, ho2)
    requires ValidDraws(cfg.numCounters, draws)
    requires forall j :: 0 <= j < Count(cfg.numCounters) ==> AcceptsCounter(m, Ids(cfg, CounterKind, cfg.numCounters, co2)[j])
    requires forall j :: 0 <= j < Count(cfg.numHistograms) ==> AcceptsHistogram(m, Ids(cfg, HistogramKind, cfg.numHistograms, ho2)[j])
    ensures var r := UpdatePass(cfg, m, co, ho, draws);
      && (forall j :: 0 <= j < Count(cfg.numCounters) ==> AcceptsCounter(r, Ids(cfg, CounterKind, cfg.numCounters, co2)[j]))
      && (forall j :: 0 <= j < Count(cfg.numHistograms) ==> AcceptsHistogram(r, Ids(cfg, HistogramKind, cfg.numHistograms, ho2)[j]))
  {
    var cids := Ids(cfg, CounterKind, cfg.numCounters, co);
    var hids := Ids(cfg, HistogramKind, cfg.numHistograms, ho);
    var cids2 := Ids(cfg, CounterKind, cfg.numCounters, co2);
    var hids2 := Ids(cfg, HistogramKind, cfg.numHistograms, ho2);
    var deltas := Increments(draws);
    var added := Added(m, cids, deltas);
    IdsDisjoint(cfg, CounterKind, cfg.numCounters, co2, HistogramKind, cfg.numHistograms, ho);
    IdsDisjoint(cfg, CounterKind, cfg.numCounters, co, HistogramKind, cfg.numHistograms, ho2);
    forall j | 0 <= j < |cids2| ensures AcceptsCounter(Pass(m, cids, hids, deltas), cids2[j]) {
      AddedKeepsAccepts(m, cids, deltas, cids2[j]);
      assert cids2[j] !in hids;
      ObservedOther(added, hids, cids2[j]);
    }
    forall j | 0 <= j < |hids2| ensures AcceptsHistogram(Pass(m, cids, hids, deltas), hids2[j]) {
      assert hids2[j] !in cids;
      AddedOther(m, cids, deltas, hids2[j]);
      ObservedKeepsAccepts(added, hids, hids2[j]);
    }
  }

  /**
   * With the two labels of fakemetrics_test.go:83-86, a pass that walks the
   * labels of `counter_j` in the other order than createMetrics did get-or-creates
   * a second series for the same counter: an identity createMetrics did not
   * register is present after the pass.
   */
  lemma OtherOrderAddsSeries(cfg: Config, m: Entries, co: seq<seq<string>>, go: seq<seq<string>>, ho: seq<seq<string>>,
                             co2: seq<seq<string>>, ho2: seq<seq<string>>, draws: seq<int>, j: int)
    requires OrdersFor(cfg, cfg.numCounters, co) && OrdersFor(cfg, cfg.numCounters, co2)
    requires OrdersFor(cfg, cfg.numGauges, go)
    requires OrdersFor(cfg, cfg.numHistograms, ho) && OrdersFor(cfg, cfg.numHistograms, ho2)
    requires ValidDraws(cfg.numCounters, draws)
    requires LabelsOf(cfg) == TestLabels
    requires 0 <= j < Count(cfg.numCounters) && co[j] == ["env", "zone"] && co2[j] == ["zone", "env"]
    requires Unregistered(m, Ids(cfg, CounterKind, cfg.numCounters, co))
    requires Unregistered(m, Ids(cfg, GaugeKind, cfg.numGauges, go))
    requires Unregistered(m, Ids(cfg, HistogramKind, cfg.numHistograms, ho))
    requires Ids(cfg, CounterKind, cfg.numCounters, co2)[j] !in m
    ensures var c := AfterCreate(cfg, m, co, go, ho);
      var id := Ids(cfg, CounterKind, cfg.numCounters, co2)[j];
      && id != Ids(cfg, CounterKind, cfg.numCounters, co)[j]
      && id !in c
      && id in UpdatePass(cfg, c, co2, ho2, draws)
  {
    var cids := Ids(cfg, CounterKind, cfg.numCounters, co);
    var gids := Ids(cfg, GaugeKind, cfg.numGauges, go);
    var hids := Ids(cfg, HistogramKind, cfg.numHistograms, ho);
    var cids2 := Ids(cfg, CounterKind, cfg.numCounters, co2);
    var hids2 := Ids(cfg, HistogramKind, cfg.numHistograms, ho2);
    var id := cids2[j];
    var c := AfterCreate(cfg, m, co, go, ho);
    TestOrdersDiffer(cfg.metricPrefix, BaseName(CounterKind, j));
    forall i | 0 <= i < |cids| ensures cids[i] != id {
      if i != j {
        BaseNamesDistinct(CounterKind, i, CounterKind, j);
        IdentityInjective(cfg.metricPrefix, BaseName(CounterKind, i), BaseName(CounterKind, j), LabelsOf(cfg), co[i], co2[j]);
      }
    }
    IdsDisjoint(cfg, CounterKind, cfg.numCounters, co2, GaugeKind, cfg.numGauges, go);
    IdsDisjoint(cfg, CounterKind, cfg.numCounters, co2, HistogramKind, cfg.numHistograms, ho);
    RegisterAllKeys(m, cids, gids, hids);
    assert id !in cids && id !in gids && id !in hids;
    PassIdsSeparate(cfg, co2, ho2);
    assert id !in hids2;
    PassCounterAt(c, cids2, hids2, Increments(draws), j);
  }

  /** The generator: its resolved configuration and where it is in its lifecycle. */
  class Generator {
    const config: Config
    var phase: Phase

    /** New: resolves the configuration; the stop channel is fresh, so the generator is not yet started. */
    constructor New(cfg: Config)
      ensures DefaultsApplied(cfg, config) && IsResolved(config)
      ensures phase == Created
    {
      var resolved := ApplyDefaults(cfg);
      config := resolved;
      phase := Created;
    }

    /** buildName: walks the labels in iteration order `order`, collecting `k="v"` items. */
    method BuildName(metricName: string, order: seq<string>) returns (name: string)
      requires IsOrderOf(order, LabelsOf(config))
      ensures name == Identity(config.metricPrefix, metricName, LabelsOf(config), order)
    {
      var labels := LabelsOf(config);
      var parts: seq<string> := [];
      var i := 0;
      while i < |order|
        invariant 0 <= i <= |order|
        invariant parts == Items(labels, order[..i])
      {
        var k := order[i];
        parts := parts + [LabelItem(k, labels[k])];
        i := i + 1;
      }
      assert order[..i] == order;
      if |parts| == 0 {
        name := config.metricPrefix + metricName;
      } else {
        name := config.metricPrefix + metricName + "{" + Join(parts, ",") + "}";
      }
    }

    /** The counter loop of createMetrics: registers `counter_i` for each i below the count. */
    method RegisterCounters(reg: Registry, co: seq<seq<string>>, ghost ids: seq<string>)
      requires OrdersFor(config, config.numCounters, co) && Rendered(config, CounterKind, config.numCounters, co, ids)
      requires Distinct(ids) && Unregistered(reg.entries, ids)
      modifies reg
      ensures reg.entries == Registered(old(reg.entries), ids, Counter(0))
    {
      ghost var m0 := reg.entries;
      var i := 0;
      while i < config.numCounters
        invariant 0 <= i <= |ids|
        invariant reg.entries == Registered(m0, ids[..i], Counter(0))
        invariant forall j :: i <= j < |ids| ==> ids[j] !in reg.entries
      {
        var name := BuildName(BaseName(CounterKind, i), co[i]);
        assert name == ids[i];
        RegisteredStep(m0, ids, i, Counter(0));
        reg.NewCounter(name);
        i := i + 1;
      }
      assert ids[..i] == ids;
    }

    /** The gauge loop of createMetrics: registers `gauge_i` for each i below the count. */
    method RegisterGauges(reg: Registry, go: seq<seq<string>>, ghost ids: seq<string>)
      requires OrdersFor(config, config.numGauges, go) && Rendered(config, GaugeKind, config.numGauges, go, ids)
      requires Distinct(ids) && Unregistered(reg.entries, ids)
      modifies reg
      ensures reg.entries == Registered(old(reg.entries), ids, Gauge)
    {
      ghost var m0 := reg.entries;
      var i := 0;
      while i < config.numGauges
        invariant 0 <= i <= |ids|
        invariant reg.entries == Registered(m0, ids[..i], Gauge)
        invariant forall j :: i <= j < |ids| ==> ids[j] !in reg.entries
      {
        var name := BuildName(BaseName(GaugeKind, i), go[i]);
        assert name == ids[i];
        RegisteredStep(m0, ids, i, Gauge);
        reg.NewGauge(name);
        i := i + 1;
      }
      assert ids[..i] == ids;
    }

    /** The histogram loop of createMetrics: registers `histogram_i` for each i below the count. */
    method RegisterHistograms(reg: Registry, ho: seq<seq<string>>, ghost ids: seq<string>)
      requires OrdersFor(config, config.numHistograms, ho) && Rendered(config, HistogramKind, config.numHistograms, ho, ids)
      requires Distinct(ids) && Unregistered(reg.entries, ids)
      modifies reg
      ensures reg.entries == Registered(old(reg.entries), ids, Histogram(0))
    {
      ghost var m0 := reg.entries;
      var i := 0;
      while i < config.numHistograms
        invariant 0 <= i <= |ids|
        invariant reg.entries == Registered(m0, ids[..i], Histogram(0))
        invariant forall j :: i <= j < |ids| ==> ids[j] !in reg.entries
      {
        var name := BuildName(BaseName(HistogramKind, i), ho[i]);
        assert name == ids[i];
        RegisteredStep(m0, ids, i, Histogram(0));
        reg.NewHistogram(name);
        i := i + 1;
      }
      assert ids[..i] == ids;
    }

    /** createMetrics: registers every counter, then every gauge, then every histogram identity. */
    method CreateMetrics(reg: Registry, co: seq<seq<string>>, go: seq<seq<string>>, ho: seq<seq<string>>)
      requires OrdersFor(config, config.numCounters, co)
      requires OrdersFor(config, config.numGauges, go)
      requires OrdersFor(config, config.numHistograms, ho)
      requires Unregistered(reg.entries, Ids(config, CounterKind, config.numCounters, co))
      requires Unregistered(reg.entries, Ids(config, GaugeKind, config.numGauges, go))
      requires Unregistered(reg.entries, Ids(config, HistogramKind, config.numHistograms, ho))
      modifies reg
      ensures reg.entries == AfterCreate(config, old(reg.entries), co, go, ho)
    {
      ghost var cids := Ids(config, CounterKind, config.numCounters, co);
      ghost var gids := Ids(config, GaugeKind, config.numGauges, go);
      ghost var hids := Ids(config, HistogramKind, config.numHistograms, ho);
      CreatedIdsSeparate(config, co, go, ho);
      IdsRendered(config, CounterKind, config.numCounters, co);
      IdsRendered(config, GaugeKind, config.numGauges, go);
      IdsRendered(config, HistogramKind, config.numHistograms, ho);

      ghost var m0 := reg.entries;
      RegisterCounters(reg, co, cids);
      RegisteredEffect(m0, cids, Counter(0));
      assert forall j :: 0 <= j < |gids| ==> gids[j] !in cids;
      assert forall j :: 0 <= j < |hids| ==> hids[j] !in cids;

      ghost var m1 := reg.entries;
      RegisterGauges(reg, go, gids);
      RegisteredEffect(m1, gids, Gauge);
      assert forall j :: 0 <= j < |hids| ==> hids[j] !in gids;

      RegisterHistograms(reg, ho, hids);
    }

    /** The counter loop of updateMetrics: adds `draws[i] + 1` to each `counter_i`. */
    method AddToCounters(reg: Registry, co: seq<seq<string>>, draws: seq<int>, ghost ids: seq<string>, ghost deltas: seq<nat>)
      requires OrdersFor(config, config.numCounters, co) && Rendered(config, CounterKind, config.numCounters, co, ids)
      requires |draws| >= |ids| && |deltas| >= |ids|
      requires forall j :: 0 <= j < |ids| ==> deltas[j] == draws[j] + 1
      requires forall j :: 0 <= j < |ids| ==> AcceptsCounter(reg.entries, ids[j])
      modifies reg
      ensures reg.entries == Added(old(reg.entries), ids, deltas)
    {
      ghost var m0 := reg.entries;
      var i := 0;
      while i < config.numCounters
        invariant 0 <= i <= |ids|
        invariant reg.entries == Added(m0, ids[..i], deltas)
      {
        var name := BuildName(BaseName(CounterKind, i), co[i]);
        assert name == ids[i];
        var intValue := draws[i] + 1;
        AddedKeepsAccepts(m0, ids[..i], deltas, name);
        AddedStep(m0, ids, deltas, i, reg.entries, name, intValue);
        reg.AddToCounter(name, intValue);
        i := i + 1;
      }
      assert ids[..i] == ids;
    }

    /** The histogram loop of updateMetrics: one observation on each `histogram_i`. */
    method ObserveHistograms(reg: Registry, ho: seq<seq<string>>, ghost ids: seq<string>)
      requires OrdersFor(config, config.numHistograms, ho) && Rendered(config, HistogramKind, config.numHistograms, ho, ids)
      requires forall j :: 0 <= j < |ids| ==> AcceptsHistogram(reg.entries, ids[j])
      modifies reg
      ensures reg.entries == Observed(old(reg.entries), ids)
    {
      ghost var m0 := reg.entries;
      var i := 0;
      while i < config.numHistograms
        invariant 0 <= i <= |ids|
        invariant reg.entries == Observed(m0, ids[..i])
      {
        var name := BuildName(BaseName(HistogramKind, i), ho[i]);
        assert name == ids[i];
        ObservedKeepsAccepts(m0, ids[..i], name);
        ObservedStep(m0, ids, i);
        reg.ObserveHistogram(name);
        i := i + 1;
      }
      assert ids[..i] == ids;
    }

    /** updateMetrics: adds `draws[i] + 1` to every counter, then observes every histogram once. */
    method UpdateMetrics(reg: Registry, co: seq<seq<string>>, ho: seq<seq<string>>, draws: seq<int>)
      requires OrdersFor(config, config.numCounters, co)
      requires OrdersFor(config, config.numHistograms, ho)
      requires ValidDraws(config.numCounters, draws)
      requires forall j :: 0 <= j < Count(config.numCounters) ==>
        AcceptsCounter(reg.entries, Ids(config, CounterKind, config.numCounters, co)[j])
      requires forall j :: 0 <= j < Count(config.numHistograms) ==>
        AcceptsHistogram(reg.entries, Ids(config, HistogramKind, config.numHistograms, ho)[j])
      modifies reg
      ensures reg.entries == UpdatePass(config, old(reg.entries), co, ho, draws)
    {
      ghost var cids := Ids(config, CounterKind, config.numCounters, co);
      ghost var hids := Ids(config, HistogramKind, config.numHistograms, ho);
      ghost var deltas := Increments(draws);
      PassIdsSeparate(config, co, ho);
      IdsRendered(config, CounterKind, config.numCounters, co);
      IdsRendered(config, HistogramKind, config.numHistograms, ho);
      ghost var m0 := reg.entries;
      AddToCounters(reg, co, draws, cids, deltas);
      forall j | 0 <= j < |hids| ensures AcceptsHistogram(reg.entries, hids[j]) {
        assert hids[j] !in cids;
        AddedOther(m0, cids, deltas, hids[j]);
      }
      ObserveHistograms(reg, ho, hids);
    }

    /**
     * Start: creates the metrics and, when updates are enabled, launches the
     * background task. time.NewTicker panics on a non-positive interval.
     */
    method Start(reg: Registry, co: seq<seq<string>>, go: seq<seq<string>>, ho: seq<seq<string>>)
      requires Next(phase, config.updateMetrics, StartCall).Some?
      requires config.updateMetrics ==> config.updateInterval > 0
      requires OrdersFor(config, config.numCounters, co)
      requires OrdersFor(config, config.numGauges, go)
      requires OrdersFor(config, config.numHistograms, ho)
      requires Unregistered(reg.entries, Ids(config, CounterKind, config.numCounters, co))
      requires Unregistered(reg.entries, Ids(config, GaugeKind, config.numGauges, go))
      requires Unregistered(reg.entries, Ids(config, HistogramKind, config.numHistograms, ho))
      modifies this, reg
      ensures phase == Next(old(phase), config.updateMetrics, StartCall).value
      ensures reg.entries == AfterCreate(config, old(reg.entries), co, go, ho)
    {
      CreateMetrics(reg, co, go, ho);
      phase := Started;
    }

    /** One tick of the background task's ticker: one update pass. */
    method Tick(reg: Registry, co: seq<seq<string>>, ho: seq<seq<string>>, draws: seq<int>)
      requires Next(phase, config.updateMetrics, TickFired).Some?
      requires OrdersFor(config, config.numCounters, co)
      requires OrdersFor(config, config.numHistograms, ho)
      requires ValidDraws(config.numCounters, draws)
      requires forall j :: 0 <= j < Count(config.numCounters) ==>
        AcceptsCounter(reg.entries, Ids(config, CounterKind, config.numCounters, co)[j])
      requires forall j :: 0 <= j < Count(config.numHistograms) ==>
        AcceptsHistogram(reg.entries, Ids(config, HistogramKind, config.numHistograms, ho)[j])
      modifies reg
      ensures phase == Next(old(phase), config.updateMetrics, TickFired).value
      ensures reg.entries == UpdatePass(config, old(reg.entries), co, ho, draws)
    {
      UpdateMetrics(reg, co, ho, draws);
    }

    /** Stop: closes the stop channel (a second close panics) and waits for the goroutine to end. */
    method Stop()
      requires Next(phase, config.updateMetrics, StopCall).Some?
      modifies this
      ensures phase == Next(old(phase), config.updateMetrics, StopCall).value
    {
      phase := Stopped;
    }
  }
}
