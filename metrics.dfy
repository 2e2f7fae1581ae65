/**
 * An abstract stand-in for the process-wide metrics registry the generator
 * writes into (the VictoriaMetrics `metrics` package). Each identity holds a
 * counter with its total, a gauge (whose value comes from a callback and is
 * not tracked) or a histogram with its number of observations.
 *
 * Two of the cases in which the library panics are preconditions here: an
 * identity registered twice, and a get-or-create that finds a metric of another
 * kind under the identity. The library also panics on a metric name it rejects
 * as malformed; that validation is not part of this model.
 */
module Metrics {
  import opened Naming

  datatype Metric = Counter(total: nat) | Gauge | Histogram(count: nat)

  type Entries = map<string, Metric>

  /** The total of the counter at `id`, or 0 when get-or-create would create it. */
  function CounterTotal(m: Entries, id: string): nat {
    if id in m && m[id].Counter? then m[id].total else 0
  }

  /** The observation count of the histogram at `id`, or 0 when get-or-create would create it. */
  function HistogramCount(m: Entries, id: string): nat {
    if id in m && m[id].Histogram? then m[id].count else 0
  }

  /** Get-or-create of a counter at `id` does not panic. */
  predicate AcceptsCounter(m: Entries, id: string) {
    id !in m || m[id].Counter?
  }

  /** Get-or-create of a histogram at `id` does not panic. */
  predicate AcceptsHistogram(m: Entries, id: string) {
    id !in m || m[id].Histogram?
  }

  /** None of `ids` is registered yet. */
  predicate Unregistered(m: Entries, ids: seq<string>) {
    forall j :: 0 <= j < |ids| ==> ids[j] !in m
  }

  /** The entries after registering each of `ids`, in turn, with value `initial`. */
  function Registered(m: Entries, ids: seq<string>, initial: Metric): Entries {
    if |ids| == 0 then m
    else Registered(m, ids[..|ids| - 1], initial)[ids[|ids| - 1] := initial]
  }

  /**
   * The entries after get-or-create and `Add(deltas[j])` on each counter `ids[j]`,
   * in turn. This is meaningful only where no `ids[j]` holds another kind
   * (`AcceptsCounter`): there the library panics, while this function writes
   * a counter over the entry.
   */
  function Added(m: Entries, ids: seq<string>, deltas: seq<nat>): Entries
    requires |deltas| >= |ids|
  {
    if |ids| == 0 then m
    else
      var before := Added(m, ids[..|ids| - 1], deltas);
      var id := ids[|ids| - 1];
      before[id := Counter(CounterTotal(before, id) + deltas[|ids| - 1])]
  }

  /**
   * The entries after get-or-create and one observation on each histogram
   * `ids[j]`, in turn. This is meaningful only where no `ids[j]` holds another
   * kind (`AcceptsHistogram`): there the library panics, while this function
   * writes a histogram over the entry.
   */
  function Observed(m: Entries, ids: seq<string>): Entries {
    if |ids| == 0 then m
    else
      var before := Observed(m, ids[..|ids| - 1]);
      var id := ids[|ids| - 1];
      before[id := Histogram(HistogramCount(before, id) + 1)]
  }

  /** Registering one more identity of a prefix of `ids`. */
  lemma RegisteredStep(m: Entries, ids: seq<string>, i: nat, initial: Metric)
    requires i < |ids|
    ensures Registered(m, ids[..i + 1], initial) == Registered(m, ids[..i], initial)[ids[i] := initial]
  {
    assert ids[..i + 1][..i] == ids[..i];
  }

  /** Adding `delta` to counter `id`, the next of `ids`, extends the prefix already added. */
  lemma AddedStep(m: Entries, ids: seq<string>, deltas: seq<nat>, i: nat, before: Entries, id: string, delta: nat)
    requires i < |ids| <= |deltas|
    requires before == Added(m, ids[..i], deltas) && id == ids[i] && delta == deltas[i]
    ensures Added(m, ids[..i + 1], deltas) == before[id := Counter(CounterTotal(before, id) + delta)]
  {
    assert ids[..i + 1][..i] == ids[..i];
  }

  /** Observing one more histogram of a prefix of `ids`. */
  lemma ObservedStep(m: Entries, ids: seq<string>, i: nat)
    requires i < |ids|
    ensures var before := Observed(m, ids[..i]);
      Observed(m, ids[..i + 1]) == before[ids[i] := Histogram(HistogramCount(before, ids[i]) + 1)]
  {
    assert ids[..i + 1][..i] == ids[..i];
  }

  /** Adding to counters never makes get-or-create of a counter panic where it did not. */
  lemma {:induction false} AddedKeepsAccepts(m: Entries, ids: seq<string>, deltas: seq<nat>, id: string)
    requires |deltas| >= |ids| && AcceptsCounter(m, id)
    ensures AcceptsCounter(Added(m, ids, deltas), id)
  {
    if |ids| > 0 {
      AddedKeepsAccepts(m, ids[..|ids| - 1], deltas, id);
    }
  }

  /** Observing histograms never makes get-or-create of a histogram panic where it did not. */
  lemma {:induction false} ObservedKeepsAccepts(m: Entries, ids: seq<string>, id: string)
    requires AcceptsHistogram(m, id)
    ensures AcceptsHistogram(Observed(m, ids), id)
  {
    if |ids| > 0 {
      ObservedKeepsAccepts(m, ids[..|ids| - 1], id);
    }
  }

  /** Registering adds exactly `ids`, each with the initial value, and keeps every other entry. */
  lemma {:induction false} RegisteredEffect(m: Entries, ids: seq<string>, initial: Metric)
    ensures forall id :: id in Registered(m, ids, initial) <==> id in m || id in ids
    ensures forall id :: id in ids ==> Registered(m, ids, initial)[id] == initial
    ensures forall id :: id in m && id !in ids ==> Registered(m, ids, initial)[id] == m[id]
  {
    if |ids| > 0 {
      var init := ids[..|ids| - 1];
      RegisteredEffect(m, init, initial);
      assert forall id :: id in ids <==> id in init || id == ids[|ids| - 1];
    }
  }

  /** Registering fresh, distinct identities grows the registry by exactly their number. */
  lemma {:induction false} RegisteredSize(m: Entries, ids: seq<string>, initial: Metric)
    requires Distinct(ids) && Unregistered(m, ids)
    ensures |Registered(m, ids, initial)| == |m| + |ids|
  {
    if |ids| > 0 {
      var init := ids[..|ids| - 1];
      var last := ids[|ids| - 1];
      assert Distinct(init);
      RegisteredSize(m, init, initial);
      RegisteredEffect(m, init, initial);
      assert last !in init;
      assert last !in Registered(m, init, initial);
    }
  }

  /** Adding to counters other than `id` leaves the entry at `id` as it was (or absent). */
  lemma {:induction false} AddedOther(m: Entries, ids: seq<string>, deltas: seq<nat>, id: string)
    requires |deltas| >= |ids| && id !in ids
    ensures id in Added(m, ids, deltas) <==> id in m
    ensures id in m ==> Added(m, ids, deltas)[id] == m[id]
  {
    if |ids| > 0 {
      var init := ids[..|ids| - 1];
      assert id !in init by {
        forall k | 0 <= k < |init| ensures init[k] != id {
          assert init[k] == ids[k];
        }
      }
      AddedOther(m, init, deltas, id);
    }
  }

  /** Adding to distinct counters raises counter `ids[j]` by `deltas[j]`, starting from 0 when it was absent. */
  lemma {:induction false} AddedAt(m: Entries, ids: seq<string>, deltas: seq<nat>, j: int)
    requires |deltas| >= |ids| && Distinct(ids) && 0 <= j < |ids|
    ensures ids[j] in Added(m, ids, deltas)
    ensures Added(m, ids, deltas)[ids[j]] == Counter(CounterTotal(m, ids[j]) + deltas[j])
  {
    var n := |ids| - 1;
    var init := ids[..n];
    if j < n {
      assert init[j] == ids[j] && ids[j] != ids[n];
      assert Distinct(init) by {
        forall a, b | 0 <= a < b < |init| ensures init[a] != init[b] {
          assert init[a] == ids[a] && init[b] == ids[b];
        }
      }
      AddedAt(m, init, deltas, j);
    } else {
      assert ids[n] !in init by {
        forall k | 0 <= k < |init| ensures init[k] != ids[n] {
          assert init[k] == ids[k];
        }
      }
      AddedOther(m, init, deltas, ids[n]);
    }
  }

  /** Observing histograms other than `id` leaves the entry at `id` as it was (or absent). */
  lemma {:induction false} ObservedOther(m: Entries, ids: seq<string>, id: string)
    requires id !in ids
    ensures id in Observed(m, ids) <==> id in m
    ensures id in m ==> Observed(m, ids)[id] == m[id]
  {
    if |ids| > 0 {
      var init := ids[..|ids| - 1];
      assert id !in init by {
        forall k | 0 <= k < |init| ensures init[k] != id {
          assert init[k] == ids[k];
        }
      }
      ObservedOther(m, init, id);
    }
  }

  /** Observing distinct histograms adds one observation to histogram `ids[j]`. */
  lemma {:induction false} ObservedAt(m: Entries, ids: seq<string>, j: int)
    requires Distinct(ids) && 0 <= j < |ids|
    ensures ids[j] in Observed(m, ids)
    ensures Observed(m, ids)[ids[j]] == Histogram(HistogramCount(m, ids[j]) + 1)
  {
    var n := |ids| - 1;
    var init := ids[..n];
    if j < n {
      assert init[j] == ids[j] && ids[j] != ids[n];
      assert Distinct(init) by {
        forall a, b | 0 <= a < b < |init| ensures init[a] != init[b] {
          assert init[a] == ids[a] && init[b] == ids[b];
        }
      }
      ObservedAt(m, init, j);
    } else {
      assert ids[n] !in init by {
        forall k | 0 <= k < |init| ensures init[k] != ids[n] {
          assert init[k] == ids[k];
        }
      }
      ObservedOther(m, init, ids[n]);
    }
  }

  /** No string occurs in both sequences. */
  predicate Disjoint(a: seq<string>, b: seq<string>) {
    forall i, j :: 0 <= i < |a| && 0 <= j < |b| ==> a[i] != b[j]
  }

  /** The registry after registering counters, then gauges, then histograms. */
  function RegisterAll(m: Entries, cids: seq<string>, gids: seq<string>, hids: seq<string>): Entries {
    Registered(Registered(Registered(m, cids, Counter(0)), gids, Gauge), hids, Histogram(0))
  }

  /** Registering keeps every entry and adds exactly the given identities. */
  lemma RegisterAllKeys(m: Entries, cids: seq<string>, gids: seq<string>, hids: seq<string>)
    ensures forall id :: id in RegisterAll(m, cids, gids, hids) <==> id in m || id in cids || id in gids || id in hids
  {
    var m1 := Registered(m, cids, Counter(0));
    var m2 := Registered(m1, gids, Gauge);
    RegisteredEffect(m, cids, Counter(0));
    RegisteredEffect(m1, gids, Gauge);
    RegisteredEffect(m2, hids, Histogram(0));
  }

  /**
   * With no identity shared by two kinds and none present before, each
   * identity holds its kind's initial value and old entries are kept.
   */
  lemma RegisterAllValues(m: Entries, cids: seq<string>, gids: seq<string>, hids: seq<string>)
    requires Disjoint(cids, gids) && Disjoint(cids, hids) && Disjoint(gids, hids)
    requires Unregistered(m, cids) && Unregistered(m, gids) && Unregistered(m, hids)
    ensures var r := RegisterAll(m, cids, gids, hids);
      && (forall id :: id in m ==> id in r && r[id] == m[id])
      && (forall j :: 0 <= j < |cids| ==> cids[j] in r && r[cids[j]] == Counter(0))
      && (forall j :: 0 <= j < |gids| ==> gids[j] in r && r[gids[j]] == Gauge)
      && (forall j :: 0 <= j < |hids| ==> hids[j] in r && r[hids[j]] == Histogram(0))
  {
    var m1 := Registered(m, cids, Counter(0));
    var m2 := Registered(m1, gids, Gauge);
    RegisteredEffect(m, cids, Counter(0));
    RegisteredEffect(m1, gids, Gauge);
    RegisteredEffect(m2, hids, Histogram(0));
    assert forall id :: id in m ==> id !in cids && id !in gids && id !in hids;
    assert forall j :: 0 <= j < |cids| ==> cids[j] !in gids && cids[j] !in hids;
    assert forall j :: 0 <= j < |gids| ==> gids[j] !in hids;
  }

  /**
   * After the three registration loops, get-or-create of a counter at an identity
   * that was free and is no gauge or histogram of the loops does not panic: it
   * finds a fresh counter or nothing.
   */
  lemma RegisterAllAcceptsCounter(m: Entries, cids: seq<string>, gids: seq<string>, hids: seq<string>, id: string)
    requires Disjoint(cids, gids) && Disjoint(cids, hids) && Disjoint(gids, hids)
    requires Unregistered(m, cids) && Unregistered(m, gids) && Unregistered(m, hids)
    requires id !in m && id !in gids && id !in hids
    ensures AcceptsCounter(RegisterAll(m, cids, gids, hids), id)
  {
    RegisterAllKeys(m, cids, gids, hids);
    RegisterAllValues(m, cids, gids, hids);
    if id in cids {
      var i :| 0 <= i < |cids| && cids[i] == id;
    }
  }

  /** The histogram twin of `RegisterAllAcceptsCounter`. */
  lemma RegisterAllAcceptsHistogram(m: Entries, cids: seq<string>, gids: seq<string>, hids: seq<string>, id: string)
    requires Disjoint(cids, gids) && Disjoint(cids, hids) && Disjoint(gids, hids)
    requires Unregistered(m, cids) && Unregistered(m, gids) && Unregistered(m, hids)
    requires id !in m && id !in cids && id !in gids
    ensures AcceptsHistogram(RegisterAll(m, cids, gids, hids), id)
  {
    RegisterAllKeys(m, cids, gids, hids);
    RegisterAllValues(m, cids, gids, hids);
    if id in hids {
      var i :| 0 <= i < |hids| && hids[i] == id;
    }
  }

  /** Registering distinct new identities grows the registry by exactly their number. */
  lemma RegisterAllSize(m: Entries, cids: seq<string>, gids: seq<string>, hids: seq<string>)
    requires Distinct(cids) && Distinct(gids) && Distinct(hids)
    requires Disjoint(cids, gids) && Disjoint(cids, hids) && Disjoint(gids, hids)
    requires Unregistered(m, cids) && Unregistered(m, gids) && Unregistered(m, hids)
    ensures |RegisterAll(m, cids, gids, hids)| == |m| + |cids| + |gids| + |hids|
  {
    var m1 := Registered(m, cids, Counter(0));
    var m2 := Registered(m1, gids, Gauge);
    RegisteredEffect(m, cids, Counter(0));
    RegisteredSize(m, cids, Counter(0));
    assert Unregistered(m1, gids);
    RegisteredEffect(m1, gids, Gauge);
    RegisteredSize(m1, gids, Gauge);
    assert Unregistered(m2, hids);
    RegisteredSize(m2, hids, Histogram(0));
  }

  /**
   * The entries after a pass: get-or-create and add to each counter, then observe
   * each histogram. Like `Added` and `Observed`, this is meaningful only where no
   * get-or-create of the pass finds another kind.
   */
  function Pass(m: Entries, cids: seq<string>, hids: seq<string>, deltas: seq<nat>): Entries
    requires |deltas| >= |cids|
  {
    Observed(Added(m, cids, deltas), hids)
  }

  /** In a pass, counter `cids[j]`, which is no histogram of the pass, grows by its delta. */
  lemma PassCounterAt(m: Entries, cids: seq<string>, hids: seq<string>, deltas: seq<nat>, j: int)
    requires |deltas| >= |cids| && Distinct(cids) && 0 <= j < |cids| && cids[j] !in hids
    ensures cids[j] in Pass(m, cids, hids, deltas)
    ensures Pass(m, cids, hids, deltas)[cids[j]] == Counter(CounterTotal(m, cids[j]) + deltas[j])
  {
    AddedAt(m, cids, deltas, j);
    ObservedOther(Added(m, cids, deltas), hids, cids[j]);
  }

  /** In a pass, histogram `hids[j]`, which is no counter of the pass, gains one observation. */
  lemma PassHistogramAt(m: Entries, cids: seq<string>, hids: seq<string>, deltas: seq<nat>, j: int)
    requires |deltas| >= |cids| && Distinct(hids) && 0 <= j < |hids| && hids[j] !in cids
    ensures hids[j] in Pass(m, cids, hids, deltas)
    ensures Pass(m, cids, hids, deltas)[hids[j]] == Histogram(HistogramCount(m, hids[j]) + 1)
  {
    AddedOther(m, cids, deltas, hids[j]);
    ObservedAt(Added(m, cids, deltas), hids, j);
  }

  /** A pass leaves every identity outside its counters and histograms as it was (or absent). */
  lemma PassOther(m: Entries, cids: seq<string>, hids: seq<string>, deltas: seq<nat>, id: string)
    requires |deltas| >= |cids| && id !in cids && id !in hids
    ensures id in Pass(m, cids, hids, deltas) <==> id in m
    ensures id in m ==> Pass(m, cids, hids, deltas)[id] == m[id]
  {
    AddedOther(m, cids, deltas, id);
    ObservedOther(Added(m, cids, deltas), hids, id);
  }

  /** A pass only ever touches its own counters and histograms, which it leaves present. */
  lemma PassKeys(m: Entries, cids: seq<string>, hids: seq<string>, deltas: seq<nat>)
    requires |deltas| >= |cids| && Distinct(cids) && Distinct(hids) && Disjoint(cids, hids)
    ensures forall id :: id in Pass(m, cids, hids, deltas) <==> id in m || id in cids || id in hids
  {
    forall id ensures id in Pass(m, cids, hids, deltas) <==> id in m || id in cids || id in hids {
      if id in cids {
        var j :| 0 <= j < |cids| && cids[j] == id;
        PassCounterAt(m, cids, hids, deltas, j);
      } else if id in hids {
        var j :| 0 <= j < |hids| && hids[j] == id;
        PassHistogramAt(m, cids, hids, deltas, j);
      } else {
        PassOther(m, cids, hids, deltas, id);
      }
    }
  }

  /** A pass over exactly the identities just registered adds no series. */
  lemma PassAfterRegisterAllKeys(m: Entries, cids: seq<string>, gids: seq<string>, hids: seq<string>, deltas: seq<nat>)
    requires |deltas| >= |cids|
    requires Distinct(cids) && Distinct(hids) && Disjoint(cids, hids)
    ensures var c := RegisterAll(m, cids, gids, hids);
      Pass(c, cids, hids, deltas).Keys == c.Keys
  {
    var c := RegisterAll(m, cids, gids, hids);
    RegisterAllKeys(m, cids, gids, hids);
    PassKeys(c, cids, hids, deltas);
  }

  /** After a pass over the counters just registered, each holds its first delta. */
  lemma PassAfterRegisterAllCounters(m: Entries, cids: seq<string>, gids: seq<string>, hids: seq<string>, deltas: seq<nat>)
    requires |deltas| >= |cids|
    requires Distinct(cids) && Distinct(hids)
    requires Disjoint(cids, gids) && Disjoint(cids, hids) && Disjoint(gids, hids)
    requires Unregistered(m, cids) && Unregistered(m, gids) && Unregistered(m, hids)
    ensures var r := Pass(RegisterAll(m, cids, gids, hids), cids, hids, deltas);
      forall j :: 0 <= j < |cids| ==> cids[j] in r && r[cids[j]] == Counter(deltas[j])
  {
    var c := RegisterAll(m, cids, gids, hids);
    RegisterAllValues(m, cids, gids, hids);
    forall j | 0 <= j < |cids|
      ensures cids[j] in Pass(c, cids, hids, deltas) && Pass(c, cids, hids, deltas)[cids[j]] == Counter(deltas[j])
    {
      assert cids[j] !in hids;
      PassCounterAt(c, cids, hids, deltas, j);
    }
  }

  /** After a pass over the histograms just registered, each holds one observation. */
  lemma PassAfterRegisterAllHistograms(m: Entries, cids: seq<string>, gids: seq<string>, hids: seq<string>, deltas: seq<nat>)
    requires |deltas| >= |cids|
    requires Distinct(cids) && Distinct(hids)
    requires Disjoint(cids, gids) && Disjoint(cids, hids) && Disjoint(gids, hids)
    requires Unregistered(m, cids) && Unregistered(m, gids) && Unregistered(m, hids)
    ensures var r := Pass(RegisterAll(m, cids, gids, hids), cids, hids, deltas);
      forall j :: 0 <= j < |hids| ==> hids[j] in r && r[hids[j]] == Histogram(1)
  {
    var c := RegisterAll(m, cids, gids, hids);
    RegisterAllValues(m, cids, gids, hids);
    forall j | 0 <= j < |hids|
      ensures hids[j] in Pass(c, cids, hids, deltas) && Pass(c, cids, hids, deltas)[hids[j]] == Histogram(1)
    {
      assert hids[j] !in cids;
      PassHistogramAt(c, cids, hids, deltas, j);
    }
  }

  /** The registry itself: one map from identity to metric, updated in place. */
  class Registry {
    var entries: Entries

    constructor ()
      ensures entries == map[]
    {
      entries := map[];
    }

    /** metrics.NewCounter: registers a counter at zero. */
    method NewCounter(id: string)
      requires id !in entries
      modifies this
      ensures entries == old(entries)[id := Counter(0)]
    {
      entries := entries[id := Counter(0)];
    }

    /** metrics.NewGauge: registers a gauge; its value callback is not modelled. */
    method NewGauge(id: string)
      requires id !in entries
      modifies this
      ensures entries == old(entries)[id := Gauge]
    {
      entries := entries[id := Gauge];
    }

    /** metrics.NewHistogram: registers a histogram with no observations. */
    method NewHistogram(id: string)
      requires id !in entries
      modifies this
      ensures entries == old(entries)[id := Histogram(0)]
    {
      entries := entries[id := Histogram(0)];
    }

    /** metrics.GetOrCreateCounter(id).Add(delta). */
    method AddToCounter(id: string, delta: nat)
      requires AcceptsCounter(entries, id)
      modifies this
      ensures entries == old(entries)[id := Counter(CounterTotal(old(entries), id) + delta)]
    {
      var total := if id in entries then entries[id].total else 0;
      entries := entries[id := Counter(total + delta)];
    }

    /** metrics.GetOrCreateHistogram(id).Update(v): only the observation count is tracked. */
    method ObserveHistogram(id: string)
      requires AcceptsHistogram(entries, id)
      modifies this
      ensures entries == old(entries)[id := Histogram(HistogramCount(old(entries), id) + 1)]
    {
      var count := if id in entries then entries[id].count else 0;
      entries := entries[id := Histogram(count + 1)];
    }
  }
}
