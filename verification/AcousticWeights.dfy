/**
 Trust weighting of an acoustic cluster over real arithmetic: temporal decay, a
 per-key cap at a quarter of the uncapped trust, and the weighted score.
 */
module AcousticWeights {
  import opened Common

  const TEMPORAL_HALF_WEIGHT_SECS := 60
  const TEMPORAL_CUTOFF_SECS := 120
  const DEFAULT_TRUST: real := 0.4
  const CAP: real := 0.25

  datatype Signal = Signal(pubkey: string, age: int, confidence: real, variance: Option<real>)

  /** A trust contribution of one key. */
  datatype Entry = Entry(key: string, value: real)

  function Trust(age: int): real {
    DEFAULT_TRUST * if age > TEMPORAL_HALF_WEIGHT_SECS then 0.5 else 1.0
  }

  predicate Survives(s: Signal) {
    s.age <= TEMPORAL_CUTOFF_SECS
  }

  // ----- sums

  function Total(es: seq<Entry>): real {
    if es == [] then 0.0 else Total(es[..|es| - 1]) + es[|es| - 1].value
  }

  /** What key `k` contributes. */
  function KeySum(es: seq<Entry>, k: string): real {
    if es == [] then 0.0
    else KeySum(es[..|es| - 1], k) + if es[|es| - 1].key == k then es[|es| - 1].value else 0.0
  }

  /** The accumulation into a table keyed by pubkey. */
  function Group(es: seq<Entry>): map<string, real> {
    if es == [] then map[]
    else
      var m, e := Group(es[..|es| - 1]), es[|es| - 1];
      m[e.key := (if e.key in m then m[e.key] else 0.0) + e.value]
  }

  ghost function MapSum(m: map<string, real>): real {
    if m == map[] then 0.0
    else
      var k :| k in m;
      m[k] + MapSum(m - {k})
  }

  /** The order of summation does not matter. */
  lemma {:induction false} MapSumTake(m: map<string, real>, k: string)
    requires k in m
    ensures MapSum(m) == m[k] + MapSum(m - {k})
    decreases |m|
  {
    var c :| c in m && MapSum(m) == m[c] + MapSum(m - {c});
    if c != k {
      MapSumTake(m - {c}, k);
      MapSumTake(m - {k}, c);
      assert m - {c} - {k} == m - {k} - {c};
    }
  }

  lemma MapSumPut(m: map<string, real>, k: string, v: real)
    ensures MapSum(m[k := (if k in m then m[k] else 0.0) + v]) == MapSum(m) + v
  {
    var m' := m[k := (if k in m then m[k] else 0.0) + v];
    MapSumTake(m', k);
    assert m' - {k} == m - {k};
    if k in m {
      MapSumTake(m, k);
    } else {
      assert m - {k} == m;
    }
  }

  lemma NothingSums()
    ensures MapSum(map[]) == 0.0
  {
  }

  /** Grouping keeps each key's sum and the total. */
  lemma {:induction false} GroupSums(es: seq<Entry>)
    ensures MapSum(Group(es)) == Total(es)
    ensures forall k :: k in Group(es) <==> exists i :: 0 <= i < |es| && es[i].key == k
    ensures forall k :: k in Group(es) ==> Group(es)[k] == KeySum(es, k)
    ensures forall k :: k !in Group(es) ==> KeySum(es, k) == 0.0
  {
    hide MapSum;
    if es == [] {
      NothingSums();
    } else {
      var init, e := es[..|es| - 1], es[|es| - 1];
      GroupSums(init);
      MapSumPut(Group(init), e.key, e.value);
      assert forall i :: 0 <= i < |init| ==> es[i] == init[i];
    }
  }

  // ----- products, kept apart from the sums

  function Times(a: real, b: real): real {
    a * b
  }

  lemma TimesDistributes(a: real, b: real, c: real)
    ensures Times(a + b, c) == Times(a, c) + Times(b, c)
    ensures Times(c, a + b) == Times(c, a) + Times(c, b)
    ensures Times(0.0, c) == 0.0 && Times(c, 0.0) == 0.0
  {
  }

  lemma TimesMonotone(a: real, b: real, w: real)
    requires a <= b && w >= 0.0
    ensures Times(w, a) <= Times(w, b)
  {
  }

  lemma TimesPositive(a: real, b: real)
    requires a > 0.0 && b > 0.0
    ensures Times(a, b) > 0.0 && b / a > 0.0
  {
  }

  lemma TimesQuotient(t: real, c: real)
    requires t > 0.0
    ensures Times(t, c / t) == c
  {
  }

  lemma TimesCancels(a: real, b: real, m: real)
    requires m > 0.0 && Times(m, a) <= Times(m, b)
    ensures a <= b
  {
  }

  // ----- cap and weights

  predicate Positive(es: seq<Entry>) {
    forall i :: 0 <= i < |es| ==> es[i].value > 0.0
  }

  lemma {:induction false} SumsArePositive(es: seq<Entry>)
    requires Positive(es)
    ensures Total(es) >= 0.0 && (es != [] ==> Total(es) > 0.0)
    ensures forall k :: KeySum(es, k) >= 0.0
    ensures forall i :: 0 <= i < |es| ==> KeySum(es, es[i].key) > 0.0
  {
    if es != [] {
      var init := es[..|es| - 1];
      SumsArePositive(init);
      assert forall i :: 0 <= i < |init| ==> es[i] == init[i];
    }
  }

  function Min(a: real, b: real): real {
    if a <= b then a else b
  }

  /** Every key's trust, capped at a quarter of all uncapped trust. */
  function Capped(es: seq<Entry>): map<string, real> {
    var g := Group(es);
    map k | k in g :: Min(g[k], CAP * Total(es))
  }

  ghost function Mass(es: seq<Entry>): real {
    MapSum(Capped(es))
  }

  function Scale(es: seq<Entry>, factors: map<string, real>): seq<Entry>
    requires forall i :: 0 <= i < |es| ==> es[i].key in factors
  {
    seq(|es|, i requires 0 <= i < |es| => Entry(es[i].key, Times(es[i].value, factors[es[i].key])))
  }

  function Share(trust: real, capped: real): real {
    if trust > 0.0 then capped / trust else 0.0
  }

  /** The share of each key's trust that the cap leaves. */
  function Factors(es: seq<Entry>): map<string, real> {
    var g, c := Group(es), Capped(es);
    map k | k in g :: Share(g[k], c[k])
  }

  /** The weight of every surviving signal, tagged with its key. */
  function Weights(es: seq<Entry>): seq<Entry> {
    GroupSums(es);
    Scale(es, Factors(es))
  }

  lemma ScaleInit(es: seq<Entry>, factors: map<string, real>)
    requires es != [] && forall i :: 0 <= i < |es| ==> es[i].key in factors
    ensures Scale(es, factors)[..|es| - 1] == Scale(es[..|es| - 1], factors)
  {
    hide Times;
  }

  lemma {:induction false} ScaledKeySum(es: seq<Entry>, factors: map<string, real>, k: string)
    requires forall i :: 0 <= i < |es| ==> es[i].key in factors
    requires k in factors
    ensures KeySum(Scale(es, factors), k) == Times(KeySum(es, k), factors[k])
  {
    hide Times;
    if es != [] {
      var init, e := es[..|es| - 1], es[|es| - 1];
      ScaledKeySum(init, factors, k);
      ScaleInit(es, factors);
      TimesDistributes(KeySum(init, k), e.value, factors[k]);
    } else {
      TimesDistributes(0.0, 0.0, factors[k]);
    }
  }

  /** Per key, the weights of its signals add up to that key's capped trust. */
  lemma WeightsSumPerKey(es: seq<Entry>, k: string)
    requires Positive(es) && k in Group(es)
    ensures KeySum(Weights(es), k) == Capped(es)[k]
  {
    hide Times, KeySum, Scale, Min;
    GroupSums(es);
    SumsArePositive(es);
    ScaledKeySum(es, Factors(es), k);
    assert KeySum(es, k) > 0.0;
    TimesQuotient(KeySum(es, k), Capped(es)[k]);
  }

  lemma WeightKeys(es: seq<Entry>)
    ensures |Weights(es)| == |es| && forall i :: 0 <= i < |es| ==> Weights(es)[i].key == es[i].key
  {
    hide Times;
  }

  /** Overall the weights add up to the total trust mass. */
  lemma WeightsSumToMass(es: seq<Entry>)
    requires Positive(es)
    ensures Total(Weights(es)) == Mass(es)
  {
    var ws := Weights(es);
    WeightKeys(es);
    GroupSums(es);
    GroupSums(ws);
    hide Weights, Total, KeySum, Group, Min, Positive, MapSum;
    forall k
      ensures k in Group(ws) <==> k in Capped(es)
      ensures k in Capped(es) ==> Group(ws)[k] == Capped(es)[k]
    {
      if k in Capped(es) {
        WeightsSumPerKey(es, k);
      }
    }
    assert Group(ws) == Capped(es);
  }

  /** A key keeps what it had, or a quarter of the uncapped total if that is less. */
  lemma CapIsQuarterOfUncapped(es: seq<Entry>, k: string)
    requires k in Group(es)
    ensures Capped(es)[k] == if KeySum(es, k) <= Total(es) / 4.0 then KeySum(es, k) else Total(es) / 4.0
  {
    GroupSums(es);
  }

  lemma WeightIsPositive(es: seq<Entry>, i: nat)
    requires Positive(es) && i < |es|
    ensures i < |Weights(es)| && Weights(es)[i].value > 0.0
  {
    hide Times;
    GroupSums(es);
    SumsArePositive(es);
    hide KeySum, Total, Group;
    var t, c := KeySum(es, es[i].key), Capped(es)[es[i].key];
    TimesPositive(t, c);
    TimesPositive(es[i].value, c / t);
  }

  /** Weights are positive, so any surviving signal gives the cluster positive mass. */
  lemma MassIsPositive(es: seq<Entry>)
    requires Positive(es) && es != []
    ensures Mass(es) > 0.0 && Positive(Weights(es))
  {
    WeightKeys(es);
    WeightsSumToMass(es);
    hide Weights, Mass;
    forall i | 0 <= i < |es|
      ensures Weights(es)[i].value > 0.0
    {
      WeightIsPositive(es, i);
    }
    SumsArePositive(Weights(es));
  }

  // ----- the score

  /** The weighted sum of confidences. */
  function Numerator(ws: seq<Entry>, confidences: seq<real>): real
    requires |ws| == |confidences|
  {
    if ws == [] then 0.0
    else
      Numerator(ws[..|ws| - 1], confidences[..|ws| - 1]) + Times(ws[|ws| - 1].value, confidences[|ws| - 1])
  }

  lemma {:induction false} NumeratorBounds(ws: seq<Entry>, cs: seq<real>, lo: real, hi: real)
    requires |ws| == |cs| && Positive(ws) && forall i :: 0 <= i < |cs| ==> lo <= cs[i] <= hi
    ensures Times(Total(ws), lo) <= Numerator(ws, cs) <= Times(Total(ws), hi)
  {
    hide Times;
    if ws != [] {
      var n := |ws| - 1;
      NumeratorBounds(ws[..n], cs[..n], lo, hi);
      TimesDistributes(Total(ws[..n]), ws[n].value, lo);
      TimesDistributes(Total(ws[..n]), ws[n].value, hi);
      TimesMonotone(lo, cs[n], ws[n].value);
      TimesMonotone(cs[n], hi, ws[n].value);
    } else {
      TimesDistributes(0.0, 0.0, lo);
      TimesDistributes(0.0, 0.0, hi);
    }
  }

  /** The raw score is a convex combination: it lies within the surviving confidences. */
  lemma ScoreIsConvex(es: seq<Entry>, cs: seq<real>, lo: real, hi: real)
    requires es != [] && Positive(es) && |cs| == |es| && forall i :: 0 <= i < |cs| ==> lo <= cs[i] <= hi
    ensures |Weights(es)| == |cs| && Mass(es) > 0.0 && lo <= Numerator(Weights(es), cs) / Mass(es) <= hi
  {
    WeightKeys(es);
    hide Weights, Mass, Numerator, Times, Total;
    MassIsPositive(es);
    WeightsSumToMass(es);
    NumeratorBounds(Weights(es), cs, lo, hi);
    var n, m := Numerator(Weights(es), cs), Mass(es);
    TimesQuotient(m, n);
    TimesCancels(lo, n / m, m);
    TimesCancels(n / m, hi, m);
  }

  // ----- the cap is not a bound on the capped mass

  lemma {:induction false} MapSumBelow(a: map<string, real>, b: map<string, real>)
    requires a.Keys == b.Keys && forall k :: k in a ==> a[k] <= b[k]
    ensures MapSum(a) <= MapSum(b)
    ensures (exists k :: k in a && a[k] < b[k]) ==> MapSum(a) < MapSum(b)
    decreases |a|
  {
    if a != map[] {
      var k :| k in a;
      if exists j :: j in a && a[j] < b[j] {
        k :| k in a && a[k] < b[k];
      }
      MapSumTake(a, k);
      MapSumTake(b, k);
      MapSumBelow(a - {k}, b - {k});
    } else {
      assert b == map[];
    }
  }

  /**
   A key may well hold more than a quarter of the capped mass: every key is within a
   quarter of it if and only if no key was above a quarter before capping.
   */
  lemma QuarterOfMassIffUncapped(es: seq<Entry>)
    requires Positive(es)
    ensures (forall k :: k in Capped(es) ==> Capped(es)[k] <= Mass(es) / 4.0)
            <==> (forall k :: k in Group(es) ==> KeySum(es, k) <= Total(es) / 4.0)
  {
    GroupSums(es);
    var g, c := Group(es), Capped(es);
    MapSumBelow(c, g);
    if forall k :: k in g ==> KeySum(es, k) <= Total(es) / 4.0 {
      assert c == g;
    } else {
      var k :| k in g && KeySum(es, k) > Total(es) / 4.0;
      assert c[k] < g[k];
      assert c[k] == Total(es) / 4.0 > Mass(es) / 4.0;
    }
  }

  // ----- the loops

  /** Indices of the signals within the cutoff, in order. */
  function Survivors(signals: seq<Signal>): (kept: seq<nat>)
    ensures forall j :: 0 <= j < |kept| ==> kept[j] < |signals| && Survives(signals[kept[j]])
  {
    if signals == [] then []
    else
      var n := |signals| - 1;
      Survivors(signals[..n]) + if Survives(signals[n]) then [n] else []
  }

  /** Exactly the signals within the cutoff survive, each once and in arrival order. */
  lemma {:induction false} SurvivorsAreThoseInTime(signals: seq<Signal>)
    ensures forall i :: i in Survivors(signals) <==> 0 <= i < |signals| && signals[i].age <= 120
    ensures forall i, j :: 0 <= i < j < |Survivors(signals)| ==> Survivors(signals)[i] < Survivors(signals)[j]
  {
    if signals != [] {
      SurvivorsAreThoseInTime(signals[..|signals| - 1]);
    }
  }

  /** The decayed trust of every survivor, under its key. */
  function Entries(signals: seq<Signal>): (es: seq<Entry>)
    ensures |es| == |Survivors(signals)| && Positive(es)
  {
    var kept := Survivors(signals);
    seq(|kept|, j requires 0 <= j < |kept| => Entry(signals[kept[j]].pubkey, Trust(signals[kept[j]].age)))
  }

  function Confidences(signals: seq<Signal>): (cs: seq<real>)
    ensures |cs| == |Survivors(signals)|
  {
    var kept := Survivors(signals);
    seq(|kept|, j requires 0 <= j < |kept| => signals[kept[j]].confidence)
  }

  /** The reported variances; one that is absent reads as zero. */
  function Variances(signals: seq<Signal>): (vs: seq<real>)
    ensures |vs| == |Survivors(signals)|
  {
    var kept := Survivors(signals);
    seq(|kept|, j requires 0 <= j < |kept| =>
      match signals[kept[j]].variance
      case Some(v) => v
      case None => 0.0)
  }

  function Sum(vs: seq<real>): real {
    if vs == [] then 0.0 else Sum(vs[..|vs| - 1]) + vs[|vs| - 1]
  }

  // ----- what age costs

  /** Signals up to a minute old, and signals older than that but within two. */
  function Fresh(signals: seq<Signal>): nat {
    if signals == [] then 0
    else Fresh(signals[..|signals| - 1]) + if signals[|signals| - 1].age <= 60 then 1 else 0
  }

  function Aging(signals: seq<Signal>): nat {
    if signals == [] then 0
    else Aging(signals[..|signals| - 1]) + if 60 < signals[|signals| - 1].age <= 120 then 1 else 0
  }

  lemma EntriesNext(signals: seq<Signal>)
    requires signals != []
    ensures var n := |signals| - 1;
            var last := signals[n];
            Entries(signals) == Entries(signals[..n]) + if last.age <= 120 then [Entry(last.pubkey, Trust(last.age))] else []
  {
    var n := |signals| - 1;
    assert forall j :: 0 <= j < |Survivors(signals[..n])| ==> Survivors(signals)[j] == Survivors(signals[..n])[j];
  }

  /** A fresh signal brings 0.4 trust, an aging one half of that, and older ones nothing. */
  lemma {:induction false} TrustHalvesWithAge(signals: seq<Signal>)
    ensures Total(Entries(signals)) == 0.4 * Fresh(signals) as real + 0.2 * Aging(signals) as real
  {
    if signals == [] {
      assert Entries(signals) == [];
    } else {
      var n := |signals| - 1;
      TrustHalvesWithAge(signals[..n]);
      EntriesNext(signals);
      hide Entries;
      var prev, age := Entries(signals[..n]), signals[n].age;
      if age <= 120 {
        var e := Entry(signals[n].pubkey, Trust(age));
        assert (prev + [e])[..|prev|] == prev;
        assert Total(prev + [e]) == Total(prev) + e.value;
        assert e.value == if age <= 60 then 0.4 else 0.2;
      } else {
        assert Entries(signals) == prev;
      }
      hide Total;
    }
  }

  /** Of one key's signals a fresh one weighs twice an aging one. */
  lemma AgingWeighsHalf(signals: seq<Signal>, i: nat, j: nat)
    requires i < |Survivors(signals)| && j < |Survivors(signals)|
    requires var a, b := signals[Survivors(signals)[i]], signals[Survivors(signals)[j]]; a.pubkey == b.pubkey && a.age <= 60 < b.age
    ensures |Weights(Entries(signals))| == |Survivors(signals)|
    ensures Weights(Entries(signals))[i].value == 2.0 * Weights(Entries(signals))[j].value
  {
    var es := Entries(signals);
    assert es[i].value == 0.4 && es[j].value == 0.2 && es[i].key == es[j].key;
    hide Weights, Survivors, Entries, Group, Capped;
    WeightAt(es, i);
    WeightAt(es, j);
  }

  method SumValues(m: map<string, real>) returns (sum: real)
    ensures sum == MapSum(m)
  {
    sum := 0.0;
    var todo := m;
    while todo.Keys != {}
      invariant sum + MapSum(todo) == MapSum(m) && todo.Keys <= m.Keys
      decreases |todo.Keys|
    {
      var k :| k in todo.Keys;
      MapSumTake(todo, k);
      sum := sum + todo[k];
      todo := todo - {k};
    }
    assert todo == map[];
  }

  method GroupByKey(es: seq<Entry>) returns (m: map<string, real>)
    ensures m == Group(es)
  {
    m := map[];
    for i := 0 to |es|
      invariant m == Group(es[..i])
    {
      assert es[..i + 1][..i] == es[..i];
      m := m[es[i].key := (if es[i].key in m then m[es[i].key] else 0.0) + es[i].value];
    }
    assert es[..|es|] == es;
  }

  /** The decayed entries of a cluster, and the indices they come from. */
  method Decay(signals: seq<Signal>) returns (kept: seq<nat>, es: seq<Entry>)
    ensures kept == Survivors(signals) && es == Entries(signals)
  {
    kept, es := [], [];
    for i := 0 to |signals|
      invariant kept == Survivors(signals[..i]) && |es| == |kept|
      invariant forall j :: 0 <= j < |kept| ==> kept[j] < i && es[j] == Entry(signals[kept[j]].pubkey, Trust(signals[kept[j]].age))
    {
      assert signals[..i + 1][..i] == signals[..i];
      if Survives(signals[i]) {
        kept, es := kept + [i], es + [Entry(signals[i].pubkey, Trust(signals[i].age))];
      }
    }
    assert signals[..|signals|] == signals;
  }

  lemma WeightAt(es: seq<Entry>, j: nat)
    requires j < |es|
    ensures var k := es[j].key;
            && k in Group(es) && k in Capped(es) && |Weights(es)| == |es|
            && Weights(es)[j].value == Times(es[j].value, Share(Group(es)[k], Capped(es)[k]))
  {
    hide Times, KeySum, Total, MapSum, Min;
    GroupSums(es);
  }

  lemma NumeratorNext(ws: seq<Entry>, cs: seq<real>, j: nat)
    requires j < |ws| == |cs|
    ensures Numerator(ws[..j + 1], cs[..j + 1]) == Numerator(ws[..j], cs[..j]) + Times(ws[j].value, cs[j])
  {
    hide Times;
    assert ws[..j + 1][..j] == ws[..j] && cs[..j + 1][..j] == cs[..j];
  }

  /** Spreads each key's capped trust over its signals and accumulates the weighted confidences. */
  method Spread(es: seq<Entry>, cs: seq<real>, vs: seq<real>, trust: map<string, real>, capped: map<string, real>)
    returns (weights: seq<real>, numerator: real, variance: real)
    requires |cs| == |vs| == |es| && trust == Group(es) && capped == Capped(es)
    ensures |weights| == |es| == |Weights(es)| && forall j :: 0 <= j < |es| ==> weights[j] == Weights(es)[j].value
    ensures numerator == Numerator(Weights(es), cs) && variance == Sum(vs)
  {
    WeightKeys(es);
    ghost var ws := Weights(es);
    weights, numerator, variance := [], 0.0, 0.0;
    assert numerator == Numerator(ws[..0], cs[..0]);
    hide Times, Share, Weights, Numerator, Capped, Group;
    for j := 0 to |es|
      invariant |weights| == j && forall i :: 0 <= i < j ==> weights[i] == ws[i].value
      invariant numerator == Numerator(ws[..j], cs[..j]) && variance == Sum(vs[..j])
    {
      WeightAt(es, j);
      NumeratorNext(ws, cs, j);
      var share := Share(trust[es[j].key], capped[es[j].key]);
      weights := weights + [Times(es[j].value, share)];
      numerator := numerator + Times(weights[j], cs[j]);
      assert vs[..j + 1][..j] == vs[..j];
      variance := variance + vs[j];
    }
    assert ws[..|es|] == ws && cs[..|es|] == cs && vs[..|es|] == vs;
  }

  /** The weights of a cluster's survivors, the total trust mass, and the weighted sum of confidences. */
  method ComputeWeights(signals: seq<Signal>)
    returns (kept: seq<nat>, weights: seq<real>, mass: real, numerator: real, variance: real)
    ensures kept == Survivors(signals) && |weights| == |kept| == |Weights(Entries(signals))|
    ensures forall j :: 0 <= j < |kept| ==> weights[j] == Weights(Entries(signals))[j].value
    ensures mass == Mass(Entries(signals)) && numerator == Numerator(Weights(Entries(signals)), Confidences(signals))
    ensures variance == Sum(Variances(signals))
    ensures kept != [] ==> mass > 0.0
  {
    var es;
    kept, es := Decay(signals);
    var cs, vs := Confidences(signals), Variances(signals);
    hide Sum, Variances, Entries, Confidences, Survivors, Total, KeySum, Weights, Numerator;
    GroupSums(es);
    var trust := GroupByKey(es);
    var total := SumValues(trust);
    var capped := map k | k in trust :: Min(trust[k], CAP * total);
    assert capped == Capped(es);
    mass := SumValues(capped);
    weights, numerator, variance := Spread(es, cs, vs, trust, capped);
    if kept != [] {
      MassIsPositive(es);
    }
  }

  /** The score of a cluster lies within any bounds on the confidences that survived the cutoff. */
  lemma ClusterScoreIsConvex(signals: seq<Signal>, lo: real, hi: real)
    requires Survivors(signals) != []
    requires forall i :: 0 <= i < |signals| && Survives(signals[i]) ==> lo <= signals[i].confidence <= hi
    ensures var es, cs := Entries(signals), Confidences(signals);
            |Weights(es)| == |cs| && Mass(es) > 0.0 && lo <= Numerator(Weights(es), cs) / Mass(es) <= hi
  {
    hide Mass, Weights, Numerator;
    SurvivorsAreThoseInTime(signals);
    ScoreIsConvex(Entries(signals), Confidences(signals), lo, hi);
  }

  lemma {:induction false} SumBounds(vs: seq<real>)
    requires forall i :: 0 <= i < |vs| ==> 0.0 <= vs[i] <= 1.0
    ensures 0.0 <= Sum(vs) <= |vs| as real
  {
    if vs != [] {
      SumBounds(vs[..|vs| - 1]);
    }
  }

  lemma {:induction false} SumOfZeros(vs: seq<real>)
    requires forall i :: 0 <= i < |vs| ==> vs[i] == 0.0
    ensures Sum(vs) == 0.0
  {
    if vs != [] {
      SumOfZeros(vs[..|vs| - 1]);
    }
  }

  /** A survivor that reports a variance counts with it; where none does, nothing is discounted. */
  lemma MissingVarianceIsFree(signals: seq<Signal>, raw: real)
    requires Survivors(signals) != []
    ensures var vs := Variances(signals);
            && (forall j :: 0 <= j < |vs| && signals[Survivors(signals)[j]].variance.Some? ==>
                  vs[j] == signals[Survivors(signals)[j]].variance.value)
            && ((forall i :: 0 <= i < |signals| ==> signals[i].variance.None?) ==> Adjusted(raw, Sum(vs) / |vs| as real) == raw)
  {
    if forall i :: 0 <= i < |signals| ==> signals[i].variance.None? {
      SumOfZeros(Variances(signals));
    }
  }

  /** The score after the variance discount. */
  function Adjusted(raw: real, mean: real): real {
    raw * (1.0 - 0.5 * mean)
  }

  lemma DiscountIsAtMostHalf(raw: real, mean: real)
    requires raw >= 0.0 && 0.0 <= mean <= 1.0
    ensures raw / 2.0 <= Adjusted(raw, mean) <= raw && raw - Adjusted(raw, mean) == raw * mean / 2.0
  {
    var lost := 0.5 * mean;
    assert 0.0 <= raw * lost <= raw * 0.5;
    assert Adjusted(raw, mean) == raw - raw * lost;
  }

  lemma MeanBounds(sum: real, n: nat)
    requires n > 0 && 0.0 <= sum <= n as real
    ensures 0.0 <= sum / n as real <= 1.0
  {
  }

  /**
   With confidences and variances in the unit interval the adjusted score stays in it,
   and discounts the raw score by at most a half.
   */
  lemma AdjustedScoreIsBounded(signals: seq<Signal>)
    requires Survivors(signals) != []
    requires forall i :: 0 <= i < |signals| ==> 0.0 <= signals[i].confidence <= 1.0
    requires forall i :: 0 <= i < |signals| && signals[i].variance.Some? ==> 0.0 <= signals[i].variance.value <= 1.0
    ensures var es, cs, vs := Entries(signals), Confidences(signals), Variances(signals);
            && |Weights(es)| == |cs| && Mass(es) > 0.0
            && var raw := Numerator(Weights(es), cs) / Mass(es);
               var adjusted := Adjusted(raw, Sum(vs) / |vs| as real);
               raw / 2.0 <= adjusted <= raw <= 1.0 && raw - adjusted == raw * (Sum(vs) / |vs| as real) / 2.0
  {
    hide Mass, Weights, Numerator, Adjusted, Sum, Entries;
    var vs := Variances(signals);
    ClusterScoreIsConvex(signals, 0.0, 1.0);
    SumBounds(vs);
    MeanBounds(Sum(vs), |vs|);
    DiscountIsAtMostHalf(Numerator(Weights(Entries(signals)), Confidences(signals)) / Mass(Entries(signals)), Sum(vs) / |vs| as real);
  }
}
