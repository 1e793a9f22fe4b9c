/** Flags as the SDK stores them: variants, toggles, and sets of toggles keyed by name. */
module Domain {
  import opened Wrappers

  datatype Payload = Payload(kind: string, value: string) {
    predicate Empty() {
      kind == ""
    }
  }

  datatype VariantFields = VariantFields(name: string, enabled: bool, payload: Option<Payload>)

  /** No constructor of the source leaves a payload on a disabled variant. */
  type Variant = v: VariantFields | v.enabled || v.payload.None?
    witness VariantFields("", false, None)

  function MakeVariant(name: string, enabled: bool, payload: Option<Payload>): (v: Variant)
    ensures v.name == name && v.enabled == enabled
    ensures v.payload.Some? <==> enabled && payload.Some?
    ensures v.payload.Some? ==> v.payload == payload
  {
    VariantFields(name, enabled, if enabled then payload else None)
  }

  const DISABLED_VARIANT: Variant := VariantFields("disabled", false, None)

  datatype Toggle = Toggle(name: string, enabled: bool, impressionData: bool, variant: Variant)

  /** The key under which a toggle is stored need not be the toggle's own name. */
  type ToggleSet = map<string, Toggle>

  ghost predicate KeysAreNames(s: ToggleSet) {
    forall k :: k in s ==> s[k].name == k
  }

  // ---- lookups ----

  predicate FlagEnabled(s: ToggleSet, name: string) {
    name in s && s[name].enabled
  }

  function FlagVariant(s: ToggleSet, name: string): Variant {
    if name in s then s[name].variant else DISABLED_VARIANT
  }

  predicate FlagImpression(s: ToggleSet, name: string) {
    name in s && s[name].impressionData
  }

  // ---- construction from a vector ----

  function Insert(s: ToggleSet, t: Toggle): ToggleSet {
    if t.name in s then s else s[t.name := t]
  }

  function FirstWins(ts: seq<Toggle>): ToggleSet {
    if ts == [] then map[] else Insert(FirstWins(ts[..|ts| - 1]), ts[|ts| - 1])
  }

  /** ts[i] is the first toggle of ts that carries the given name. */
  ghost predicate FirstNamed(ts: seq<Toggle>, name: string, i: int) {
    && 0 <= i < |ts|
    && ts[i].name == name
    && forall j :: 0 <= j < i ==> ts[j].name != name
  }

  /** Exactly the names present are keys, and each key holds its first occurrence. */
  lemma {:induction false} FirstWinsHoldsFirstOccurrences(ts: seq<Toggle>)
    ensures forall k :: k in FirstWins(ts) <==> exists i :: 0 <= i < |ts| && ts[i].name == k
    ensures forall k, i :: k in FirstWins(ts) && FirstNamed(ts, k, i) ==> FirstWins(ts)[k] == ts[i]
    ensures KeysAreNames(FirstWins(ts))
  {
    if ts != [] {
      var front := ts[..|ts| - 1];
      FirstWinsHoldsFirstOccurrences(front);
      forall k, i | k in FirstWins(ts) && FirstNamed(ts, k, i) ensures FirstWins(ts)[k] == ts[i] {
        if i < |front| {
          assert FirstNamed(front, k, i) && front[i].name == k;
        }
      }
      forall k ensures k in FirstWins(ts) <==> exists i :: 0 <= i < |ts| && ts[i].name == k {
        if i :| 0 <= i < |ts| && ts[i].name == k {
          if i < |front| {
            assert front[i].name == k;
          }
        }
      }
    }
  }

  method ToggleSetOf(toggles: seq<Toggle>) returns (s: ToggleSet)
    ensures s == FirstWins(toggles)
  {
    s := map[];
    for i := 0 to |toggles|
      invariant s == FirstWins(toggles[..i])
    {
      assert toggles[..i + 1][..i] == toggles[..i];
      if toggles[i].name !in s {
        s := s[toggles[i].name := toggles[i]];
      }
    }
    assert toggles[..|toggles|] == toggles;
  }

  /** Toggles with pairwise distinct names are all kept, so the order of insertion is irrelevant. */
  lemma {:induction false} FirstWinsOfDistinctNames(ts: seq<Toggle>, i: nat)
    requires i < |ts|
    requires forall j, k :: 0 <= j < k < |ts| ==> ts[j].name != ts[k].name
    ensures ts[i].name in FirstWins(ts) && FirstWins(ts)[ts[i].name] == ts[i]
  {
    FirstWinsHoldsFirstOccurrences(ts);
    assert FirstNamed(ts, ts[i].name, i);
  }
}
