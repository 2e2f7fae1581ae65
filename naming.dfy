/** Small option type used for the `nil`-able label map of a configuration. */
module Wrappers {
  datatype Option<+T> = None | Some(value: T)
}

/**
 * Rendering of metric identities: the base names `counter_<i>`, `gauge_<i>`,
 * `histogram_<i>` and the string `prefix + name + "{" + k="v",... + "}"`
 * that the generator registers each metric under.
 *
 * The labels come from a Go map, whose iteration order is unspecified and may
 * differ from one `range` loop to the next. Each rendering therefore takes the
 * order it walked the map in as an explicit parameter, constrained only to
 * visit every key exactly once.
 */
module Naming {

  /** No string occurs twice. */
  predicate Distinct(s: seq<string>) {
    forall i, j :: 0 <= i < j < |s| ==> s[i] != s[j]
  }

  /** `order` is one possible iteration order of `labels`: every key exactly once, nothing else. */
  predicate IsOrderOf(order: seq<string>, labels: map<string, string>) {
    && Distinct(order)
    && (forall k :: k in order ==> k in labels)
    && (forall k :: k in labels ==> k in order)
  }

  /** One rendered label, `key="value"`; quotes inside the value are not escaped. */
  function LabelItem(key: string, value: string): string {
    key + "=\"" + value + "\""
  }

  /** The rendered labels, in the order the map was walked. */
  function Items(labels: map<string, string>, order: seq<string>): seq<string>
    requires forall j :: 0 <= j < |order| ==> order[j] in labels
  {
    seq(|order|, j requires 0 <= j < |order| => LabelItem(order[j], labels[order[j]]))
  }

  /** The rendered labels of a map, as a set: what does not depend on the order. */
  function LabelItemSet(labels: map<string, string>): set<string> {
    set k | k in labels :: LabelItem(k, labels[k])
  }

  /** Go's strings.Join. */
  function Join(parts: seq<string>, sep: string): string {
    if |parts| == 0 then ""
    else if |parts| == 1 then parts[0]
    else parts[0] + sep + Join(parts[1..], sep)
  }

  /** The identity buildName produces when it walks `labels` in `order`. */
  function Identity(prefix: string, metricName: string, labels: map<string, string>, order: seq<string>): string
    requires IsOrderOf(order, labels)
  {
    var items := Items(labels, order);
    if |items| == 0 then prefix + metricName
    else prefix + metricName + "{" + Join(items, ",") + "}"
  }

  predicate NoBrace(s: string) {
    forall j :: 0 <= j < |s| ==> s[j] != '{'
  }

  lemma {:induction false} DistinctSetSize(s: seq<string>)
    requires Distinct(s)
    ensures |set x | x in s| == |s|
  {
    if |s| > 0 {
      var init := s[..|s| - 1];
      assert Distinct(init);
      DistinctSetSize(init);
      assert (set x | x in s) == (set x | x in init) + {s[|s| - 1]};
      assert s[|s| - 1] !in (set x | x in init);
    }
  }

  /** An iteration order visits exactly as many keys as the map holds. */
  lemma OrderLength(order: seq<string>, labels: map<string, string>)
    requires IsOrderOf(order, labels)
    ensures |order| == |labels|
  {
    DistinctSetSize(order);
    assert (set x | x in order) == labels.Keys;
  }

  /** With no labels, the identity is the bare `prefix + metricName` (main.go:136-138). */
  lemma IdentityWithoutLabels(prefix: string, metricName: string, labels: map<string, string>, order: seq<string>)
    requires IsOrderOf(order, labels)
    requires |labels| == 0
    ensures Identity(prefix, metricName, labels, order) == prefix + metricName
  {
    OrderLength(order, labels);
  }

  /**
   * With labels, the identity is `prefix + metricName + "{" ... "}"` and the part
   * between the braces is the comma join of one item per label, each label
   * contributing exactly one (main.go:131-140).
   */
  lemma IdentityWithLabels(prefix: string, metricName: string, labels: map<string, string>, order: seq<string>)
    requires IsOrderOf(order, labels)
    requires |labels| > 0
    ensures var id := Identity(prefix, metricName, labels, order);
      var head := prefix + metricName + "{";
      var items := Items(labels, order);
      && |head| < |id|
      && id[..|head|] == head
      && id[|id| - 1] == '}'
      && id[|head|..|id| - 1] == Join(items, ",")
      && |items| == |labels|
      && (set x | x in items) == LabelItemSet(labels)
      && (forall x :: multiset(items)[x] == |RenderingsOf(labels, x)|)
  {
    OrderLength(order, labels);
    var head := prefix + metricName + "{";
    var items := Items(labels, order);
    var id := Identity(prefix, metricName, labels, order);
    assert id == head + Join(items, ",") + "}";
    assert id[..|head|] == head;
    assert id[|head|..|id| - 1] == Join(items, ",");
    ItemsCoverLabels(labels, order);
    forall x ensures multiset(items)[x] == |RenderingsOf(labels, x)| {
      ItemsCount(labels, order, x);
    }
  }

  /** Every label, and nothing else, is rendered once per iteration order. */
  lemma ItemsCoverLabels(labels: map<string, string>, order: seq<string>)
    requires IsOrderOf(order, labels)
    ensures (set x | x in Items(labels, order)) == LabelItemSet(labels)
  {
    var items := Items(labels, order);
    forall x | x in items ensures x in LabelItemSet(labels) {
      var j :| 0 <= j < |items| && items[j] == x;
      assert order[j] in order;
    }
    forall x | x in LabelItemSet(labels) ensures x in items {
      var k :| k in labels && x == LabelItem(k, labels[k]);
      assert k in order;
      var j :| 0 <= j < |order| && order[j] == k;
      assert items[j] == x;
    }
  }

  /** Every element of `s` is a key of `labels`. */
  predicate KeysIn(s: seq<string>, labels: map<string, string>) {
    forall j :: 0 <= j < |s| ==> s[j] in labels
  }

  /** Rendering a concatenation of keys renders each part in turn. */
  lemma ItemsAppend(labels: map<string, string>, a: seq<string>, b: seq<string>)
    requires forall j :: 0 <= j < |a| ==> a[j] in labels
    requires forall j :: 0 <= j < |b| ==> b[j] in labels
    ensures Items(labels, a + b) == Items(labels, a) + Items(labels, b)
  {
    var ab := a + b;
    forall j | 0 <= j < |ab|
      ensures Items(labels, ab)[j] == (Items(labels, a) + Items(labels, b))[j]
    {
      if j >= |a| {
        assert ab[j] == b[j - |a|];
      }
    }
  }

  /** A key sequence without repetitions holds each of its elements exactly once. */
  lemma {:induction false} DistinctMultiset(s: seq<string>, x: string)
    requires Distinct(s)
    ensures multiset(s)[x] == if x in s then 1 else 0
  {
    if |s| > 0 {
      var init := s[..|s| - 1];
      var last := s[|s| - 1];
      assert s == init + [last];
      assert Distinct(init) by {
        forall a, b | 0 <= a < b < |init| ensures init[a] != init[b] {
          assert init[a] == s[a] && init[b] == s[b];
        }
      }
      assert last !in init by {
        forall k | 0 <= k < |init| ensures init[k] != last {
          assert init[k] == s[k];
        }
      }
      DistinctMultiset(init, x);
      assert x in s <==> x in init || x == last;
    }
  }

  /** Two iteration orders of the same map are permutations of each other. */
  lemma OrdersPermute(labels: map<string, string>, o1: seq<string>, o2: seq<string>)
    requires IsOrderOf(o1, labels) && IsOrderOf(o2, labels)
    ensures multiset(o1) == multiset(o2)
  {
    forall x ensures multiset(o1)[x] == multiset(o2)[x] {
      DistinctMultiset(o1, x);
      DistinctMultiset(o2, x);
    }
  }

  /** Taking out the element at `i` takes one copy of it out of the multiset. */
  lemma RemoveOne(s: seq<string>, i: nat)
    requires i < |s|
    ensures multiset(s[..i] + s[i + 1..]) == multiset(s) - multiset{s[i]}
  {
    assert s == s[..i] + [s[i]] + s[i + 1..];
  }

  /** Taking the same key out of two permutations of each other leaves permutations of each other. */
  lemma MultisetRemove(o1: seq<string>, o2: seq<string>, i: nat, j: nat)
    requires i < |o1| && j < |o2| && o1[i] == o2[j] && multiset(o1) == multiset(o2)
    ensures multiset(o1[..i] + o1[i + 1..]) == multiset(o2[..j] + o2[j + 1..])
  {
    RemoveOne(o1, i);
    RemoveOne(o2, j);
  }

  /** The items of a key sequence are the item of key `s[i]` and the items of the other keys. */
  lemma ItemsAround(labels: map<string, string>, s: seq<string>, i: nat)
    requires forall j :: 0 <= j < |s| ==> s[j] in labels
    requires i < |s|
    ensures KeysIn(s[..i] + s[i + 1..], labels)
    ensures multiset(Items(labels, s)) == multiset{LabelItem(s[i], labels[s[i]])} + multiset(Items(labels, s[..i] + s[i + 1..]))
  {
    var rest := s[..i] + s[i + 1..];
    forall j | 0 <= j < |rest| ensures rest[j] in labels {
      if j < i {
        assert rest[j] == s[j];
      } else {
        assert rest[j] == s[j + 1];
      }
    }
    var front, back := s[..i], s[i + 1..];
    assert s == front + [s[i]] + back;
    ItemsAppend(labels, front + [s[i]], back);
    ItemsAppend(labels, front, [s[i]]);
    ItemsAppend(labels, front, back);
  }

  /** Keys that are permutations of each other render items that are permutations of each other. */
  lemma {:induction false} PermutedItems(labels: map<string, string>, o1: seq<string>, o2: seq<string>)
    requires forall j :: 0 <= j < |o1| ==> o1[j] in labels
    requires forall j :: 0 <= j < |o2| ==> o2[j] in labels
    requires multiset(o1) == multiset(o2)
    ensures multiset(Items(labels, o1)) == multiset(Items(labels, o2))
    decreases |o1|
  {
    if |o1| == 0 {
      assert |multiset(o2)| == 0;
    } else {
      var k := o1[0];
      assert k in multiset(o2) by {
        assert k in multiset(o1);
      }
      var i :| 0 <= i < |o2| && o2[i] == k;
      var r1, r2 := o1[..0] + o1[1..], o2[..i] + o2[i + 1..];
      MultisetRemove(o1, o2, 0, i);
      ItemsAround(labels, o1, 0);
      ItemsAround(labels, o2, i);
      PermutedItems(labels, r1, r2);
    }
  }

  /** The labels whose rendering is the text `x`. */
  function RenderingsOf(labels: map<string, string>, x: string): set<string> {
    set k | k in labels && LabelItem(k, labels[k]) == x
  }

  /** Dropping the last key of an iteration order leaves an iteration order of the other labels. */
  lemma OrderOfRest(labels: map<string, string>, order: seq<string>, init: seq<string>, last: string)
    requires IsOrderOf(order, labels) && |order| > 0
    requires init == order[..|order| - 1] && last == order[|order| - 1]
    ensures order == init + [last]
    ensures IsOrderOf(init, labels - {last})
  {
    assert last !in init by {
      forall k | 0 <= k < |init| ensures init[k] != last {
        assert init[k] == order[k];
      }
    }
    assert Distinct(init) by {
      forall a, b | 0 <= a < b < |init| ensures init[a] != init[b] {
        assert init[a] == order[a] && init[b] == order[b];
      }
    }
    assert order == init + [last];
  }

  /** Rendering one more key appends its item. */
  lemma ItemsSnoc(labels: map<string, string>, init: seq<string>, last: string)
    requires KeysIn(init, labels) && last in labels
    ensures Items(labels, init + [last]) == Items(labels, init) + [LabelItem(last, labels[last])]
  {
    ItemsAppend(labels, init, [last]);
  }

  /** Appending an element adds one occurrence of it and changes no other count. */
  lemma CountSnoc(before: seq<string>, item: string, x: string)
    ensures multiset(before + [item])[x] == multiset(before)[x] + (if item == x then 1 else 0)
  {
    assert multiset(before + [item]) == multiset(before) + multiset{item};
  }

  /** Rendering keys of a sub-map with the same values gives the same items. */
  lemma ItemsOfSubmap(labels: map<string, string>, rest: map<string, string>, keys: seq<string>)
    requires KeysIn(keys, rest)
    requires forall k :: k in rest ==> k in labels && rest[k] == labels[k]
    ensures KeysIn(keys, labels) && Items(labels, keys) == Items(rest, keys)
  {
  }

  /** The labels rendering to `x` are those of the other labels, plus `last` when it renders to `x`. */
  lemma RenderingsSplit(labels: map<string, string>, last: string, x: string)
    requires last in labels
    ensures |RenderingsOf(labels, x)| ==
      |RenderingsOf(labels - {last}, x)| + (if LabelItem(last, labels[last]) == x then 1 else 0)
  {
    var rest := labels - {last};
    if LabelItem(last, labels[last]) == x {
      assert RenderingsOf(labels, x) == RenderingsOf(rest, x) + {last};
    } else {
      assert RenderingsOf(labels, x) == RenderingsOf(rest, x);
    }
  }

  /**
   * Each label contributes exactly one item: a text occurs among the items as
   * often as there are labels that render to it.
   */
  lemma {:induction false} ItemsCount(labels: map<string, string>, order: seq<string>, x: string)
    requires IsOrderOf(order, labels)
    ensures multiset(Items(labels, order))[x] == |RenderingsOf(labels, x)|
    decreases |order|
  {
    if |order| == 0 {
      assert labels.Keys == {};
      assert RenderingsOf(labels, x) == {};
      assert Items(labels, order) == [];
    } else {
      var init, last := order[..|order| - 1], order[|order| - 1];
      var rest := labels - {last};
      OrderOfRest(labels, order, init, last);
      ItemsCount(rest, init, x);
      ItemsOfSubmap(labels, rest, init);
      ItemsSnoc(labels, init, last);
      CountSnoc(Items(labels, init), LabelItem(last, labels[last]), x);
      RenderingsSplit(labels, last, x);
    }
  }

  /**
   * Two renderings of the same labels contain the same label items, each as
   * often as the other, whatever the orders.
   */
  lemma LabelItemsOrderIndependent(labels: map<string, string>, o1: seq<string>, o2: seq<string>)
    requires IsOrderOf(o1, labels) && IsOrderOf(o2, labels)
    ensures |Items(labels, o1)| == |Items(labels, o2)|
    ensures (set x | x in Items(labels, o1)) == (set x | x in Items(labels, o2))
    ensures multiset(Items(labels, o1)) == multiset(Items(labels, o2))
  {
    OrderLength(o1, labels);
    OrderLength(o2, labels);
    ItemsCoverLabels(labels, o1);
    ItemsCoverLabels(labels, o2);
    OrdersPermute(labels, o1, o2);
    PermutedItems(labels, o1, o2);
  }

  /** With at most one label there is only one iteration order, so the identity is canonical. */
  lemma IdentityCanonicalForOneLabel(prefix: string, metricName: string, labels: map<string, string>,
                                     o1: seq<string>, o2: seq<string>)
    requires IsOrderOf(o1, labels) && IsOrderOf(o2, labels)
    requires |labels| <= 1
    ensures Identity(prefix, metricName, labels, o1) == Identity(prefix, metricName, labels, o2)
  {
    OrderLength(o1, labels);
    OrderLength(o2, labels);
    if |labels| == 1 {
      var k := o1[0];
      assert k in labels;
      assert labels.Keys - {k} == {};
      assert o2[0] in labels;
      assert o1 == [k] == o2;
    } else {
      assert o1 == [] == o2;
    }
  }

  /** The two-label map of fakemetrics_test.go:83-86. */
  const TestLabels: map<string, string> := map["env" := "prod", "zone" := "us-east"]

  lemma TestLabelsOrders()
    ensures IsOrderOf(["env", "zone"], TestLabels) && IsOrderOf(["zone", "env"], TestLabels)
  {
    assert TestLabels.Keys == {"env", "zone"};
  }

  lemma TestItems()
    ensures Items(TestLabels, ["env", "zone"]) == ["env=\"prod\"", "zone=\"us-east\""]
    ensures Items(TestLabels, ["zone", "env"]) == ["zone=\"us-east\"", "env=\"prod\""]
  {
    assert TestLabels["env"] == "prod" && TestLabels["zone"] == "us-east";
    assert LabelItem("env", "prod") == "env=\"prod\"";
    assert LabelItem("zone", "us-east") == "zone=\"us-east\"";
  }

  lemma JoinTwo(x: string, y: string, sep: string)
    ensures Join([x, y], sep) == x + sep + y
  {
    assert [x, y][1..] == [y];
  }

  /** With two rendered labels the identity is `prefix + name + "{" + x + "," + y + "}"`. */
  lemma IdentityOfTwo(prefix: string, metricName: string, labels: map<string, string>, order: seq<string>, x: string, y: string)
    requires IsOrderOf(order, labels) && Items(labels, order) == [x, y]
    ensures Identity(prefix, metricName, labels, order) == prefix + metricName + "{" + x + "," + y + "}"
  {
    JoinTwo(x, y, ",");
  }

  /** The expected string of fakemetrics_test.go:89, assembled from its parts. */
  lemma EnvFirstText()
    ensures "test_" + "metric_1" + "{" + "env=\"prod\"" + "," + "zone=\"us-east\"" + "}" == "test_metric_1{env=\"prod\",zone=\"us-east\"}"
  {
  }

  /** The string the other iteration order gives, assembled from its parts. */
  lemma ZoneFirstText()
    ensures "test_" + "metric_1" + "{" + "zone=\"us-east\"" + "," + "env=\"prod\"" + "}" == "test_metric_1{zone=\"us-east\",env=\"prod\"}"
  {
  }

  /** The rendering fakemetrics_test.go:89 expects: `env` walked first. */
  lemma IdentityEnvFirst()
    ensures IsOrderOf(["env", "zone"], TestLabels)
    ensures Identity("test_", "metric_1", TestLabels, ["env", "zone"]) == "test_metric_1{env=\"prod\",zone=\"us-east\"}"
  {
    TestLabelsOrders();
    TestItems();
    var e, z := "env=\"prod\"", "zone=\"us-east\"";
    IdentityOfTwo("test_", "metric_1", TestLabels, ["env", "zone"], e, z);
    EnvFirstText();
  }

  /** The other rendering Go's map iteration may produce for the same call: `zone` walked first. */
  lemma IdentityZoneFirst()
    ensures IsOrderOf(["zone", "env"], TestLabels)
    ensures Identity("test_", "metric_1", TestLabels, ["zone", "env"]) == "test_metric_1{zone=\"us-east\",env=\"prod\"}"
  {
    TestLabelsOrders();
    TestItems();
    var e, z := "env=\"prod\"", "zone=\"us-east\"";
    IdentityOfTwo("test_", "metric_1", TestLabels, ["zone", "env"], z, e);
    ZoneFirstText();
  }

  /**
   * With two labels both iteration orders are possible and give different
   * strings for the same metric, so the fixed expectation of
   * fakemetrics_test.go:89 holds for only one of them.
   */
  lemma IdentityDependsOnOrder()
    ensures IsOrderOf(["env", "zone"], TestLabels) && IsOrderOf(["zone", "env"], TestLabels)
    ensures Identity("test_", "metric_1", TestLabels, ["env", "zone"]) != Identity("test_", "metric_1", TestLabels, ["zone", "env"])
  {
    IdentityEnvFirst();
    IdentityZoneFirst();
    var a := Identity("test_", "metric_1", TestLabels, ["env", "zone"]);
    var b := Identity("test_", "metric_1", TestLabels, ["zone", "env"]);
    assert a[14] == 'e' && b[14] == 'z';
  }

  /** For any prefix and name, the two orders of the two-label test map give different identities. */
  lemma TestOrdersDiffer(prefix: string, metricName: string)
    ensures IsOrderOf(["env", "zone"], TestLabels) && IsOrderOf(["zone", "env"], TestLabels)
    ensures Identity(prefix, metricName, TestLabels, ["env", "zone"]) != Identity(prefix, metricName, TestLabels, ["zone", "env"])
  {
    TestLabelsOrders();
    TestItems();
    var e, z := "env=\"prod\"", "zone=\"us-east\"";
    IdentityOfTwo(prefix, metricName, TestLabels, ["env", "zone"], e, z);
    IdentityOfTwo(prefix, metricName, TestLabels, ["zone", "env"], z, e);
    var head := prefix + metricName + "{";
    var a := head + e + "," + z + "}";
    var b := head + z + "," + e + "}";
    assert a[|head|] == e[0] == 'e';
    assert b[|head|] == z[0] == 'z';
  }

  /**
   * Distinct base names without a `{` never render to the same identity, whatever
   * orders the two renderings walk the labels in.
   */
  lemma IdentityInjective(prefix: string, a: string, b: string, labels: map<string, string>,
                          o1: seq<string>, o2: seq<string>)
    requires IsOrderOf(o1, labels) && IsOrderOf(o2, labels)
    requires a != b && NoBrace(a) && NoBrace(b)
    ensures Identity(prefix, a, labels, o1) != Identity(prefix, b, labels, o2)
  {
    OrderLength(o1, labels);
    OrderLength(o2, labels);
    var s1 := Identity(prefix, a, labels, o1);
    var s2 := Identity(prefix, b, labels, o2);
    var p := |prefix|;
    if |labels| == 0 {
      assert s1 == prefix + a && s2 == prefix + b;
      assert s1[p..] == a && s2[p..] == b;
    } else {
      var t1 := Join(Items(labels, o1), ",") + "}";
      var t2 := Join(Items(labels, o2), ",") + "}";
      assert s1 == prefix + a + "{" + t1;
      assert s2 == prefix + b + "{" + t2;
      if |a| == |b| {
        assert s1[p..p + |a|] == a;
        assert s2[p..p + |b|] == b;
      } else if |a| < |b| {
        assert s1[p + |a|] == '{';
        assert s2[p + |a|] == b[|a|];
      } else {
        assert s2[p + |b|] == '{';
        assert s1[p + |b|] == a[|b|];
      }
    }
  }

  // ---- base names: fmt.Sprintf("counter_%d", i) and its siblings ----

  datatype Kind = CounterKind | GaugeKind | HistogramKind

  function KindWord(kind: Kind): string {
    match kind
    case CounterKind => "counter_"
    case GaugeKind => "gauge_"
    case HistogramKind => "histogram_"
  }

  function DigitChar(d: nat): char
    requires d < 10
  {
    ('0' as int + d) as char
  }

  predicate IsDigit(c: char) {
    '0' <= c <= '9'
  }

  /** The decimal rendering of `n` (`%d` of a non-negative int). */
  function Decimal(n: nat): (s: string)
    ensures |s| >= 1
    ensures forall j :: 0 <= j < |s| ==> IsDigit(s[j])
  {
    if n < 10 then [DigitChar(n)] else Decimal(n / 10) + [DigitChar(n % 10)]
  }

  /** Reads a string of decimal digits back as a number. */
  function ParseDecimal(s: string): nat
    requires forall j :: 0 <= j < |s| ==> IsDigit(s[j])
  {
    if |s| == 0 then 0
    else
      assert IsDigit(s[|s| - 1]);
      ParseDecimal(s[..|s| - 1]) * 10 + (s[|s| - 1] as int - '0' as int)
  }

  lemma {:induction false} DecimalRoundTrip(n: nat)
    ensures ParseDecimal(Decimal(n)) == n
  {
    var s := Decimal(n);
    if n < 10 {
      assert s[..|s| - 1] == [];
    } else {
      DecimalRoundTrip(n / 10);
      assert s[..|s| - 1] == Decimal(n / 10);
    }
  }

  /** The base name of the i-th metric of a kind, as main.go:95, 101, 109, 117, 125 format it. */
  function BaseName(kind: Kind, i: nat): string {
    KindWord(kind) + Decimal(i)
  }

  /** A base name is its kind's word followed by the digits of its index, and has no `{`. */
  lemma BaseNameParts(kind: Kind, i: nat)
    ensures |BaseName(kind, i)| > |KindWord(kind)|
    ensures BaseName(kind, i)[0] == KindWord(kind)[0]
    ensures BaseName(kind, i)[|KindWord(kind)|..] == Decimal(i)
    ensures NoBrace(BaseName(kind, i))
  {
    var w := KindWord(kind);
    var d := Decimal(i);
    assert BaseName(kind, i) == w + d;
    forall j | 0 <= j < |w + d| ensures (w + d)[j] != '{' {
      if j >= |w| {
        assert (w + d)[j] == d[j - |w|];
      }
    }
  }

  /** Base names never contain `{`, and no two metrics share one. */
  lemma BaseNamesDistinct(k1: Kind, i: nat, k2: Kind, j: nat)
    requires k1 != k2 || i != j
    ensures NoBrace(BaseName(k1, i)) && NoBrace(BaseName(k2, j))
    ensures BaseName(k1, i) != BaseName(k2, j)
  {
    BaseNameParts(k1, i);
    BaseNameParts(k2, j);
    if k1 == k2 && BaseName(k1, i) == BaseName(k2, j) {
      DecimalRoundTrip(i);
      DecimalRoundTrip(j);
    }
  }
}
