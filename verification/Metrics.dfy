/** Usage counters: per toggle, the list of toggles, and the store that guards the list. */
module Metrics {
  import opened Wrappers
  import opened JsonValue

  /** One recorded use of a flag; getVariant also names the variant it returned. */
  datatype Use = Use(flag: string, yes: bool, variant: Option<string>)

  /** unsigned int is 32 bits wide. */
  const UINT_RANGE := 0x1_0000_0000

  function Increment(n: nat): nat {
    (n + 1) % UINT_RANGE
  }

  datatype Counts = Counts(yes: nat, no: nat, variants: map<string, nat>)

  const NO_COUNTS := Counts(0, 0, map[])

  type Tally = map<string, Counts>

  function CountVariant(variants: map<string, nat>, name: string): map<string, nat> {
    if name == "" then variants
    else variants[name := Increment(if name in variants then variants[name] else 0)]
  }

  function CountUse(c: Counts, u: Use): Counts {
    var c := if u.yes then c.(yes := Increment(c.yes)) else c.(no := Increment(c.no));
    if u.variant.None? then c else c.(variants := CountVariant(c.variants, u.variant.value))
  }

  function Record(t: Tally, u: Use): Tally {
    t[u.flag := CountUse(if u.flag in t then t[u.flag] else NO_COUNTS, u)]
  }

  function TallyOf(uses: seq<Use>): Tally {
    if uses == [] then map[] else Record(TallyOf(uses[..|uses| - 1]), uses[|uses| - 1])
  }

  // ---- what a tally says ----

  function Matching(uses: seq<Use>, flag: string, yes: bool): nat {
    if uses == [] then 0
    else
      var u := uses[|uses| - 1];
      Matching(uses[..|uses| - 1], flag, yes) + (if u.flag == flag && u.yes == yes then 1 else 0)
  }

  function WithVariant(uses: seq<Use>, flag: string, variant: string): nat {
    if uses == [] then 0
    else
      var u := uses[|uses| - 1];
      WithVariant(uses[..|uses| - 1], flag, variant) + (if u.flag == flag && u.variant == Some(variant) then 1 else 0)
  }

  function CountsOf(t: Tally, flag: string): Counts {
    if flag in t then t[flag] else NO_COUNTS
  }

  function VariantCount(c: Counts, variant: string): nat {
    if variant in c.variants then c.variants[variant] else 0
  }

  ghost function Places(uses: seq<Use>, flag: string, yes: bool): set<int> {
    set i | 0 <= i < |uses| && uses[i].flag == flag && uses[i].yes == yes
  }

  ghost function VariantPlaces(uses: seq<Use>, flag: string, variant: string): set<int> {
    set i | 0 <= i < |uses| && uses[i].flag == flag && uses[i].variant == Some(variant)
  }

  /** The two counts are numbers of positions. */
  lemma {:induction false} MatchingIs(uses: seq<Use>, flag: string, yes: bool)
    ensures Matching(uses, flag, yes) == |Places(uses, flag, yes)|
  {
    if uses != [] {
      var n := |uses| - 1;
      var front, u := uses[..n], uses[n];
      MatchingIs(front, flag, yes);
      var rest := Places(front, flag, yes);
      if u.flag == flag && u.yes == yes {
        assert Places(uses, flag, yes) == rest + {n};
      } else {
        assert Places(uses, flag, yes) == rest;
      }
    }
  }

  lemma {:induction false} WithVariantIs(uses: seq<Use>, flag: string, variant: string)
    ensures WithVariant(uses, flag, variant) == |VariantPlaces(uses, flag, variant)|
  {
    if uses != [] {
      var n := |uses| - 1;
      var front, u := uses[..n], uses[n];
      WithVariantIs(front, flag, variant);
      var rest := VariantPlaces(front, flag, variant);
      if u.flag == flag && u.variant == Some(variant) {
        assert VariantPlaces(uses, flag, variant) == rest + {n};
      } else {
        assert VariantPlaces(uses, flag, variant) == rest;
      }
    }
  }

  lemma IncrementCounts(n: nat)
    ensures Increment(n % UINT_RANGE) == (n + 1) % UINT_RANGE
  {
  }

  /** Each counter is the number of matching uses, modulo the width of the counter. */
  lemma {:induction false} TallyCountsUses(uses: seq<Use>, flag: string, variant: string)
    ensures var c := CountsOf(TallyOf(uses), flag);
            && c.yes == Matching(uses, flag, true) % UINT_RANGE
            && c.no == Matching(uses, flag, false) % UINT_RANGE
            && (variant != "" ==> VariantCount(c, variant) == WithVariant(uses, flag, variant) % UINT_RANGE)
            && "" !in c.variants
    ensures flag in TallyOf(uses) <==> Matching(uses, flag, true) + Matching(uses, flag, false) > 0
  {
    if uses != [] {
      var front := uses[..|uses| - 1];
      TallyCountsUses(front, flag, variant);
      IncrementCounts(Matching(front, flag, true));
      IncrementCounts(Matching(front, flag, false));
      IncrementCounts(WithVariant(front, flag, variant));
    }
  }

  /** One counter of a flag. */
  datatype Counter = Yes | No | OfVariant(name: string)

  /** The uses that a counter counts. */
  function Occurrences(uses: seq<Use>, flag: string, k: Counter): nat {
    match k
    case Yes => Matching(uses, flag, true)
    case No => Matching(uses, flag, false)
    case OfVariant(name) => WithVariant(uses, flag, name)
  }

  function Reading(t: Tally, flag: string, k: Counter): nat {
    match k
    case Yes => CountsOf(t, flag).yes
    case No => CountsOf(t, flag).no
    case OfVariant(name) => VariantCount(CountsOf(t, flag), name)
  }

  lemma {:induction false} OccurrencesOfConcatenation(a: seq<Use>, b: seq<Use>, flag: string, k: Counter)
    ensures Occurrences(a + b, flag, k) == Occurrences(a, flag, k) + Occurrences(b, flag, k)
  {
    if b == [] {
      assert a + b == a;
    } else {
      var n := |b| - 1;
      OccurrencesOfConcatenation(a, b[..n], flag, k);
      assert (a + b)[..|a + b| - 1] == a + b[..n];
    }
  }

  lemma {:induction false} TallyIsEmptyIff(uses: seq<Use>)
    ensures TallyOf(uses) == map[] <==> uses == []
  {
    if uses != [] {
      assert uses[|uses| - 1].flag in TallyOf(uses);
    }
  }

  lemma TallyGrows(uses: seq<Use>, u: Use)
    ensures TallyOf(uses + [u]) == Record(TallyOf(uses), u)
  {
    assert (uses + [u])[..|uses|] == uses;
  }

  // ---- the payload ----

  function EncodeCounts(c: Counts): Json {
    Obj(map["yes" := Number(c.yes), "no" := Number(c.no),
            "variants" := Obj(map v | v in c.variants :: Number(c.variants[v]))])
  }

  function EncodeMetrics(t: Tally, start: string, stop: string, appName: string, instanceId: string): Json {
    Obj(map["bucket" := Obj(map["start" := Str(start), "stop" := Str(stop),
                                "toggles" := Obj(map f | f in t :: EncodeCounts(t[f]))]),
            "appName" := Str(appName), "instanceId" := Str(instanceId)])
  }

  function FindIn(j: Option<Json>, key: string): Option<Json> {
    if j.Some? then Find(j.value, key) else None
  }

  /** A count read from a metrics payload; path is a counter of the flag. */
  function ReadCount(payload: Json, flag: string, counter: string): Option<Json> {
    FindIn(FindIn(FindIn(Find(payload, "bucket"), "toggles"), flag), counter)
  }

  /** The payload carries the tally: each flag and counter is found in it, and no other flag is. */
  lemma PayloadCarriesTally(
    t: Tally, start: string, stop: string, appName: string, instanceId: string, flag: string, variant: string)
    ensures var p := EncodeMetrics(t, start, stop, appName, instanceId);
            && ReadCount(p, flag, "yes") == (if flag in t then Some(Number(t[flag].yes)) else None)
            && ReadCount(p, flag, "no") == (if flag in t then Some(Number(t[flag].no)) else None)
            && FindIn(ReadCount(p, flag, "variants"), variant)
            == (if flag in t && variant in t[flag].variants then Some(Number(t[flag].variants[variant])) else None)
            && FindIn(Find(p, "bucket"), "start") == Some(Str(start))
            && FindIn(Find(p, "bucket"), "stop") == Some(Str(stop))
            && Find(p, "appName") == Some(Str(appName)) && Find(p, "instanceId") == Some(Str(instanceId))
  {
    var toggles := Obj(map f | f in t :: EncodeCounts(t[f]));
    var p := EncodeMetrics(t, start, stop, appName, instanceId);
    assert FindIn(Find(p, "bucket"), "toggles") == Some(toggles);
    if flag in t {
      assert FindIn(Some(toggles), flag) == Some(EncodeCounts(t[flag]));
      assert FindIn(Some(EncodeCounts(t[flag])), "variants")
          == Some(Obj(map v | v in t[flag].variants :: Number(t[flag].variants[v])));
    }
  }

  // ---- the classes ----

  class MetricToggle {
    const toggleName: string
    var variantsStats: map<string, nat>
    var yesCount: nat
    var noCount: nat

    function View(): Counts
      reads this
    {
      Counts(yesCount, noCount, variantsStats)
    }

    constructor (name: string)
      ensures View() == NO_COUNTS && toggleName == name
    {
      toggleName, variantsStats, yesCount, noCount := name, map[], 0, 0;
    }

    method UpdateEnableMetric(isYes: bool)
      modifies this
      ensures View() == CountUse(old(View()), Use(toggleName, isYes, None))
      ensures yesCount == (if isYes then (old(yesCount) + 1) % 0x1_0000_0000 else old(yesCount))
      ensures noCount == (if isYes then old(noCount) else (old(noCount) + 1) % 0x1_0000_0000)
      ensures variantsStats == old(variantsStats)
    {
      if isYes {
        yesCount := Increment(yesCount);
      } else {
        noCount := Increment(noCount);
      }
    }

    method UpdateVariantMetric(isYes: bool, variantName: string)
      modifies this
      ensures View() == CountUse(old(View()), Use(toggleName, isYes, Some(variantName)))
      ensures yesCount == (if isYes then (old(yesCount) + 1) % 0x1_0000_0000 else old(yesCount))
      ensures noCount == (if isYes then old(noCount) else (old(noCount) + 1) % 0x1_0000_0000)
      ensures variantName == "" ==> variantsStats == old(variantsStats)
      ensures variantName != "" ==> variantsStats == old(variantsStats)[variantName :=
                if variantName in old(variantsStats) then (old(variantsStats)[variantName] + 1) % 0x1_0000_0000 else 1]
    {
      if isYes {
        yesCount := Increment(yesCount);
      } else {
        noCount := Increment(noCount);
      }
      if variantName != "" {
        var count := if variantName in variantsStats then variantsStats[variantName] else 0;
        variantsStats := variantsStats[variantName := Increment(count)];
      }
    }
  }

  class MetricList {
    var metricList: map<string, MetricToggle>

    ghost function Repr(): set<object>
      reads this
    {
      {this} + set k | k in metricList :: metricList[k]
    }

    ghost predicate Valid()
      reads Repr()
    {
      && (forall k :: k in metricList ==> metricList[k].toggleName == k)
    }

    ghost function View(): Tally
      reads Repr()
    {
      map k | k in metricList :: metricList[k].View()
    }

    constructor ()
      ensures Valid() && View() == map[] && fresh(Repr())
    {
      metricList := map[];
    }

    method AddEnableMetricData(toggleName: string, isYes: bool)
      requires Valid()
      modifies Repr()
      ensures Valid() && fresh(Repr() - old(Repr()))
      ensures View() == Record(old(View()), Use(toggleName, isYes, None))
    {
      if toggleName in metricList {
        metricList[toggleName].UpdateEnableMetric(isYes);
        return;
      }
      var toggle := new MetricToggle(toggleName);
      toggle.UpdateEnableMetric(isYes);
      metricList := metricList[toggleName := toggle];
    }

    method AddVariantMetricData(toggleName: string, isYes: bool, variantName: string)
      requires Valid()
      modifies Repr()
      ensures Valid() && fresh(Repr() - old(Repr()))
      ensures View() == Record(old(View()), Use(toggleName, isYes, Some(variantName)))
    {
      if toggleName in metricList {
        metricList[toggleName].UpdateVariantMetric(isYes, variantName);
        return;
      }
      var toggle := new MetricToggle(toggleName);
      toggle.UpdateVariantMetric(isYes, variantName);
      metricList := metricList[toggleName := toggle];
    }

    method EncodeToggles() returns (toggles: map<string, Json>)
      requires Valid()
      ensures toggles == map f | f in View() :: EncodeCounts(View()[f])
    {
      toggles := map[];
      var rest := metricList.Keys;
      while rest != {}
        invariant rest <= metricList.Keys
        invariant toggles.Keys == metricList.Keys - rest
        invariant forall f :: f in toggles ==> toggles[f] == EncodeCounts(metricList[f].View())
        decreases |rest|
      {
        var name :| name in rest;
        toggles := toggles[name := EncodeCounts(metricList[name].View())];
        rest := rest - {name};
      }
    }
  }

  /** Each method is one critical section of the store's mutex. */
  class MetricsStore {
    var list: MetricList
    var start: string
    const appName: string
    const instanceId: string

    ghost function Repr(): set<object>
      reads this, list
    {
      {this} + list.Repr()
    }

    ghost predicate Valid()
      reads this, list, Repr()
    {
      list.Valid()
    }

    ghost function View(): Tally
      reads this, list, Repr()
    {
      list.View()
    }

    /** now is the clock's current time. */
    constructor (appName: string, instanceId: string, now: string)
      ensures Valid() && View() == map[] && start == now && fresh(Repr())
      ensures this.appName == appName && this.instanceId == instanceId
    {
      this.appName, this.instanceId, start := appName, instanceId, now;
      list := new MetricList();
    }

    method Reset(now: string)
      modifies this
      ensures Valid() && View() == map[] && start == now && fresh(Repr() - {this})
    {
      list := new MetricList();
      start := now;
    }

    method AddEnableMetric(toggleName: string, isYes: bool)
      requires Valid()
      modifies Repr()
      ensures Valid() && fresh(Repr() - old(Repr())) && start == old(start)
      ensures View() == Record(old(View()), Use(toggleName, isYes, None))
    {
      list.AddEnableMetricData(toggleName, isYes);
    }

    method AddVariantMetric(toggleName: string, isYes: bool, variantName: string)
      requires Valid()
      modifies Repr()
      ensures Valid() && fresh(Repr() - old(Repr())) && start == old(start)
      ensures View() == Record(old(View()), Use(toggleName, isYes, Some(variantName)))
    {
      list.AddVariantMetricData(toggleName, isYes, variantName);
    }

    method Empty() returns (b: bool)
      requires Valid()
      ensures b <==> View() == map[]
    {
      b := |list.metricList| == 0;
      assert View().Keys == list.metricList.Keys;
      if list.metricList != map[] {
        var k :| k in list.metricList;
        assert k in View();
      }
    }

    method ToJsonMetricsPayload(now: string) returns (payload: Option<Json>)
      requires Valid()
      ensures payload == if View() == map[] then None
                         else Some(EncodeMetrics(View(), start, now, appName, instanceId))
    {
      var empty := Empty();
      if empty {
        return None;
      }
      var toggles := list.EncodeToggles();
      var bucket := Obj(map["start" := Str(start), "stop" := Str(now), "toggles" := Obj(toggles)]);
      payload := Some(Obj(map["bucket" := bucket, "appName" := Str(appName), "instanceId" := Str(instanceId)]));
    }
  }
}
