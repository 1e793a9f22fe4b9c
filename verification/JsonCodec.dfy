/** JSON encoding of toggle sets, on JSON values; text that does not parse is None. */
module JsonCodec {
  import opened Wrappers
  import opened Domain
  import opened JsonValue

  datatype EntryError =
    | EntryNotObject
    | BadName
    | BadEnabled
    | BadImpressionData
    | VariantNotObject
    | PayloadNotObject

  datatype DecodeError =
    | InvalidJson
    | MissingToggles
    | TogglesNotArray
    | InvalidToggle(index: nat, reason: EntryError)

  // ---- decoding one entry ----

  function DecodeToggle(item: Json): Result<Toggle, EntryError> {
    if !item.Obj? then Failure(EntryNotObject)
    else
      var name := Find(item, "name");
      if !IsStr(name) then Failure(BadName)
      else
        var enabled := Find(item, "enabled");
        if !IsBool(enabled) then Failure(BadEnabled)
        else
          var impression := Find(item, "impressionData");
          if impression.Some? && !impression.value.Bool? then Failure(BadImpressionData)
          else
            var impressionData := impression.Some? && impression.value.b;
            if !enabled.value.b then
              Success(Toggle(name.value.s, false, impressionData, DISABLED_VARIANT))
            else
              match Find(item, "variant")
              case None => Success(Toggle(name.value.s, true, impressionData, DISABLED_VARIANT))
              case Some(v) =>
                if !v.Obj? then Failure(VariantNotObject)
                else
                  match DecodeVariant(v)
                  case Failure(e) => Failure(e)
                  case Success(variant) => Success(Toggle(name.value.s, true, impressionData, variant))
  }

  predicate UsableVariant(v: Json) {
    && NonEmptyStr(Find(v, "name"))
    && IsBool(Find(v, "enabled"))
    && Find(v, "enabled").value.b
  }

  function DecodeVariant(v: Json): Result<Variant, EntryError>
    requires v.Obj?
  {
    if !UsableVariant(v) then Success(DISABLED_VARIANT)
    else
      var name := Find(v, "name").value.s;
      match Find(v, "payload")
      case None => Success(MakeVariant(name, true, None))
      case Some(p) =>
        if !p.Obj? then Failure(PayloadNotObject)
        else
          var kind := Find(p, "type");
          var value := Find(p, "value");
          if !NonEmptyStr(kind) || !IsStr(value) then Success(MakeVariant(name, true, None))
          else Success(MakeVariant(name, true, Some(Payload(kind.value.s, value.value.s))))
  }

  /** What the server may send: the optional parts are checked only where they are used. */
  predicate ValidEntry(item: Json) {
    && IsStr(Find(item, "name"))
    && IsBool(Find(item, "enabled"))
    && (Find(item, "impressionData").Some? ==> IsBool(Find(item, "impressionData")))
    && (Find(item, "enabled").value.b && Find(item, "variant").Some? ==>
          var v := Find(item, "variant").value;
          v.Obj? && (UsableVariant(v) && Find(v, "payload").Some? ==> Find(v, "payload").value.Obj?))
  }

  lemma EntryDecodesIffValid(item: Json)
    ensures DecodeToggle(item).Success? <==> ValidEntry(item)
    ensures DecodeToggle(item).Success? ==> Normal(DecodeToggle(item).value)
  {
  }

  /** The variant is the one that v describes, with its payload exactly if that has a type and a value. */
  ghost predicate VariantIsRead(v: Json, variant: Variant) {
    && Find(v, "name") == Some(Str(variant.name)) && variant.name != ""
    && Find(v, "enabled") == Some(Bool(true)) && variant.enabled
    && match variant.payload
       case Some(p) =>
         && Find(v, "payload").Some? && p.kind != ""
         && Find(Find(v, "payload").value, "type") == Some(Str(p.kind))
         && Find(Find(v, "payload").value, "value") == Some(Str(p.value))
       case None =>
         Find(v, "payload").Some? ==>
           || !NonEmptyStr(Find(Find(v, "payload").value, "type"))
           || !IsStr(Find(Find(v, "payload").value, "value"))
  }

  /** What a valid entry means. */
  lemma DecodedEntryIs(item: Json)
    requires ValidEntry(item)
    ensures DecodeToggle(item).Success?
    ensures var t := DecodeToggle(item).value;
            && Find(item, "name") == Some(Str(t.name))
            && Find(item, "enabled") == Some(Bool(t.enabled))
            && (t.impressionData <==> Find(item, "impressionData") == Some(Bool(true)))
            && (if t.enabled && Find(item, "variant").Some?
                   && NonEmptyStr(Find(Find(item, "variant").value, "name"))
                   && Find(Find(item, "variant").value, "enabled") == Some(Bool(true))
                then VariantIsRead(Find(item, "variant").value, t.variant)
                else t.variant == VariantFields("disabled", false, None))
  {
  }

  /** The error names the first check that failed. */
  lemma EntryErrorIs(item: Json)
    requires DecodeToggle(item).Failure?
    ensures var e := DecodeToggle(item).error;
            && (e == EntryNotObject <==> !item.Obj?)
            && (e == BadName <==> item.Obj? && !IsStr(Find(item, "name")))
            && (e == BadEnabled <==> item.Obj? && IsStr(Find(item, "name")) && !IsBool(Find(item, "enabled")))
            && (e == BadImpressionData <==>
                  && IsStr(Find(item, "name")) && IsBool(Find(item, "enabled"))
                  && Find(item, "impressionData").Some? && !IsBool(Find(item, "impressionData")))
            && (e == VariantNotObject ==> Find(item, "variant").Some? && !Find(item, "variant").value.Obj?)
            && (e == PayloadNotObject ==>
                  && Find(item, "variant").Some? && Find(item, "variant").value.Obj?
                  && Find(Find(item, "variant").value, "payload").Some?
                  && !Find(Find(item, "variant").value, "payload").value.Obj?)
  {
  }

  // ---- decoding the response ----

  function DecodeEntries(items: seq<Json>): Result<seq<Toggle>, DecodeError> {
    if items == [] then Success([])
    else
      match DecodeEntries(items[..|items| - 1])
      case Failure(e) => Failure(e)
      case Success(ts) =>
        match DecodeToggle(items[|items| - 1])
        case Failure(e) => Failure(InvalidToggle(|items| - 1, e))
        case Success(t) => Success(ts + [t])
  }

  function DecodeFeatures(root: Option<Json>): Result<ToggleSet, DecodeError> {
    match root
    case None => Failure(InvalidJson)
    case Some(j) =>
      match Find(j, "toggles")
      case None => Failure(MissingToggles)
      case Some(toggles) =>
        if !toggles.Arr? then Failure(TogglesNotArray)
        else
          match DecodeEntries(toggles.items)
          case Failure(e) => Failure(e)
          case Success(ts) => Success(FirstWins(ts))
  }

  /**
   * Decoding an array succeeds exactly when every entry is valid; otherwise the error names the
   * least invalid index and that entry's own error.
   */
  lemma {:induction false} DecodeEntriesOutcome(items: seq<Json>)
    ensures DecodeEntries(items).Success? <==> forall i :: 0 <= i < |items| ==> ValidEntry(items[i])
    ensures DecodeEntries(items).Success? ==>
              && |DecodeEntries(items).value| == |items|
              && forall i :: 0 <= i < |items| ==> DecodeToggle(items[i]) == Success(DecodeEntries(items).value[i])
    ensures DecodeEntries(items).Failure? ==>
              && DecodeEntries(items).error.InvalidToggle?
              && var i := DecodeEntries(items).error.index;
                 && i < |items|
                 && DecodeToggle(items[i]) == Failure(DecodeEntries(items).error.reason)
                 && forall j :: 0 <= j < i ==> ValidEntry(items[j])
  {
    if items != [] {
      var front := items[..|items| - 1];
      DecodeEntriesOutcome(front);
      EntryDecodesIffValid(items[|items| - 1]);
      if DecodeEntries(items).Failure? && DecodeEntries(front).Failure? {
        var i := DecodeEntries(front).error.index;
        assert front[i] == items[i];
        EntryDecodesIffValid(items[i]);
      }
    }
  }

  /** items[i] is the first entry that carries the name k. */
  ghost predicate FirstEntryNamed(items: seq<Json>, k: string, i: nat) {
    && i < |items| && Find(items[i], "name") == Some(Str(k))
    && forall j :: 0 <= j < i ==> Find(items[j], "name") != Some(Str(k))
  }

  /**
   * A response decodes exactly when it has an array of valid entries under "toggles"; then its set holds, for
   * each name in the array, the first entry of that name. Otherwise the error says what is missing.
   */
  lemma {:induction false} ResponseOutcome(root: Option<Json>)
    ensures DecodeFeatures(root).Success? <==>
              && root.Some? && Find(root.value, "toggles").Some? && Find(root.value, "toggles").value.Arr?
              && var items := Find(root.value, "toggles").value.items;
                 forall i :: 0 <= i < |items| ==> ValidEntry(items[i])
    ensures DecodeFeatures(root).Success? ==>
              var items, s := Find(root.value, "toggles").value.items, DecodeFeatures(root).value;
              && (forall k :: k in s ==> exists i :: FirstEntryNamed(items, k, i))
              && (forall i: nat, k :: FirstEntryNamed(items, k, i) ==>
                    k in s && DecodeToggle(items[i]) == Success(s[k]))
    ensures DecodeFeatures(root) == Failure(InvalidJson) <==> root.None?
    ensures DecodeFeatures(root) == Failure(MissingToggles) <==> root.Some? && Find(root.value, "toggles").None?
    ensures DecodeFeatures(root) == Failure(TogglesNotArray) <==>
              root.Some? && Find(root.value, "toggles").Some? && !Find(root.value, "toggles").value.Arr?
  {
    if root.Some? && Find(root.value, "toggles").Some? && Find(root.value, "toggles").value.Arr? {
      var items := Find(root.value, "toggles").value.items;
      DecodeEntriesOutcome(items);
      if DecodeEntries(items).Success? {
        FirstEntriesAreKept(items, DecodeEntries(items).value);
      }
    }
  }

  lemma FirstEntriesAreKept(items: seq<Json>, ts: seq<Toggle>)
    requires |ts| == |items| && forall i :: 0 <= i < |items| ==> DecodeToggle(items[i]) == Success(ts[i])
    ensures forall k :: k in FirstWins(ts) ==> exists i :: FirstEntryNamed(items, k, i)
    ensures forall i: nat, k :: FirstEntryNamed(items, k, i) ==>
              k in FirstWins(ts) && DecodeToggle(items[i]) == Success(FirstWins(ts)[k])
  {
    FirstWinsHoldsFirstOccurrences(ts);
    forall i | 0 <= i < |items| ensures Find(items[i], "name") == Some(Str(ts[i].name)) {
      EntryDecodesIffValid(items[i]);
      DecodedEntryIs(items[i]);
    }
    forall k | k in FirstWins(ts) ensures exists i :: FirstEntryNamed(items, k, i) {
      var i :| 0 <= i < |ts| && ts[i].name == k;
      var first := FirstOf(items, k, i);
      assert FirstEntryNamed(items, k, first);
    }
    forall i: nat, k | FirstEntryNamed(items, k, i)
      ensures k in FirstWins(ts) && DecodeToggle(items[i]) == Success(FirstWins(ts)[k])
    {
      assert ts[i].name == k;
      assert FirstNamed(ts, k, i);
    }
  }

  lemma {:induction false} FirstOf(items: seq<Json>, k: string, i: nat) returns (first: nat)
    requires i < |items| && Find(items[i], "name") == Some(Str(k))
    ensures FirstEntryNamed(items, k, first)
    decreases i
  {
    if j :| 0 <= j < i && Find(items[j], "name") == Some(Str(k)) {
      first := FirstOf(items, k, j);
    } else {
      first := i;
    }
  }

  method DecodeClientFeaturesResponse(root: Option<Json>) returns (r: Result<ToggleSet, DecodeError>)
    ensures r == DecodeFeatures(root)
  {
    if root.None? {
      return Failure(InvalidJson);
    }
    var found := Find(root.value, "toggles");
    if found.None? {
      return Failure(MissingToggles);
    }
    if !found.value.Arr? {
      return Failure(TogglesNotArray);
    }
    var items := found.value.items;
    var toggles: seq<Toggle> := [];
    var index := 0;
    while index < |items|
      invariant 0 <= index <= |items|
      invariant DecodeEntries(items[..index]) == Success(toggles)
    {
      assert items[..index + 1][..index] == items[..index];
      var decoded := DecodeToggle(items[index]);
      if decoded.Failure? {
        FailureSpreads(items, index + 1);
        return Failure(InvalidToggle(index, decoded.error));
      }
      toggles := toggles + [decoded.value];
      index := index + 1;
    }
    assert items[..index] == items;
    var s := ToggleSetOf(toggles);
    r := Success(s);
  }

  /** A failing prefix decides the outcome. */
  lemma {:induction false} FailureSpreads(items: seq<Json>, n: nat)
    requires n <= |items| && DecodeEntries(items[..n]).Failure?
    ensures DecodeEntries(items) == DecodeEntries(items[..n])
  {
    if n < |items| {
      var front := items[..|items| - 1];
      assert front[..n] == items[..n];
      FailureSpreads(front, n);
    } else {
      assert items[..n] == items;
    }
  }

  // ---- encoding ----

  function EncodePayload(p: Payload): Json {
    Obj(map["type" := Str(p.kind), "value" := Str(p.value)])
  }

  function EncodeVariant(v: Variant): Json {
    var fields := map["name" := Str(v.name), "enabled" := Bool(v.enabled)];
    Obj(if v.payload.Some? && !v.payload.value.Empty() then fields["payload" := EncodePayload(v.payload.value)]
        else fields)
  }

  function EncodeToggle(t: Toggle): Json {
    Obj(map["name" := Str(t.name),
            "enabled" := Bool(t.enabled),
            "impressionData" := Bool(t.impressionData),
            "variant" := EncodeVariant(t.variant)])
  }

  /** What a reader finds in an encoded toggle; an empty payload is left out. */
  lemma EncodedEntryIs(t: Toggle)
    ensures var j := EncodeToggle(t);
            && Find(j, "name") == Some(Str(t.name)) && Find(j, "enabled") == Some(Bool(t.enabled))
            && Find(j, "impressionData") == Some(Bool(t.impressionData)) && Find(j, "variant").Some?
            && var v := Find(j, "variant").value;
               && Find(v, "name") == Some(Str(t.variant.name)) && Find(v, "enabled") == Some(Bool(t.variant.enabled))
               && (Find(v, "payload").Some? <==> t.variant.payload.Some? && t.variant.payload.value.kind != "")
               && (Find(v, "payload").Some? ==>
                     && Find(Find(v, "payload").value, "type") == Some(Str(t.variant.payload.value.kind))
                     && Find(Find(v, "payload").value, "value") == Some(Str(t.variant.payload.value.value)))
  {
  }

  /** A hash map is walked in an order of its own: any listing of the keys without repetition. */
  ghost predicate IterationOrder(order: seq<string>, s: ToggleSet) {
    && (forall k :: k in order <==> k in s)
    && forall i, j :: 0 <= i < j < |order| ==> order[i] != order[j]
  }

  lemma {:induction false} SomeIterationOrder(s: ToggleSet) returns (order: seq<string>)
    ensures IterationOrder(order, s)
    decreases |s|
  {
    if s == map[] {
      order := [];
    } else {
      var k :| k in s;
      order := SomeIterationOrder(s - {k});
      order := order + [k];
    }
  }

  ghost function EncodeFeatures(order: seq<string>, s: ToggleSet): Json
    requires IterationOrder(order, s)
  {
    Obj(map["toggles" := Arr(seq(|order|, i requires 0 <= i < |order| => EncodeToggle(s[order[i]])))])
  }

  method EncodeClientFeaturesResponse(s: ToggleSet) returns (root: Json)
    ensures exists order :: IterationOrder(order, s) && root == EncodeFeatures(order, s)
  {
    var items: seq<Json> := [];
    var rest := s.Keys;
    ghost var order: seq<string> := [];
    while rest != {}
      invariant rest <= s.Keys && |items| == |order|
      invariant forall k :: k in order <==> k in s && k !in rest
      invariant forall i, j :: 0 <= i < j < |order| ==> order[i] != order[j]
      invariant forall i :: 0 <= i < |order| ==> order[i] in s && items[i] == EncodeToggle(s[order[i]])
      decreases |rest|
    {
      var name :| name in rest;
      items := items + [EncodeToggle(s[name])];
      order := order + [name];
      rest := rest - {name};
    }
    root := Obj(map["toggles" := Arr(items)]);
    assert items == seq(|order|, i requires 0 <= i < |order| => EncodeToggle(s[order[i]]));
    assert root == EncodeFeatures(order, s);
  }

  // ---- round trip ----

  function NormaliseVariant(t: Toggle): Variant {
    if !t.enabled || t.variant.name == "" || !t.variant.enabled then DISABLED_VARIANT
    else if t.variant.payload.Some? && t.variant.payload.value.Empty() then t.variant.(payload := None)
    else t.variant
  }

  /** What survives storing a toggle. */
  function Normalise(t: Toggle): Toggle {
    t.(variant := NormaliseVariant(t))
  }

  function NormaliseSet(s: ToggleSet): ToggleSet {
    map k | k in s :: Normalise(s[k])
  }

  ghost predicate Normal(t: Toggle) {
    Normalise(t) == t
  }

  ghost predicate NormalSet(s: ToggleSet) {
    KeysAreNames(s) && forall k :: k in s ==> Normal(s[k])
  }

  /** What the normal form of a toggle is: only its variant may differ. */
  lemma NormalFormIs(t: Toggle)
    ensures var n := Normalise(t);
            && n.name == t.name && n.enabled == t.enabled && n.impressionData == t.impressionData
            && (if t.enabled && t.variant.enabled && t.variant.name != ""
                then && n.variant.name == t.variant.name && n.variant.enabled
                     && n.variant.payload == (if t.variant.payload.Some? && t.variant.payload.value.kind != ""
                                              then t.variant.payload else None)
                else n.variant == VariantFields("disabled", false, None))
  {
  }

  lemma NormaliseIsIdempotent(t: Toggle)
    ensures Normal(Normalise(t))
  {
  }

  lemma EntryRoundTrip(t: Toggle)
    ensures DecodeToggle(EncodeToggle(t)) == Success(Normalise(t))
  {
    var v := EncodeVariant(t.variant);
    assert Find(v, "name") == Some(Str(t.variant.name));
    assert Find(v, "enabled") == Some(Bool(t.variant.enabled));
    if t.variant.payload.Some? && !t.variant.payload.value.Empty() {
      assert Find(v, "payload") == Some(EncodePayload(t.variant.payload.value));
    } else {
      assert Find(v, "payload") == None;
    }
  }

  /** Decoding an encoded set, for any set and any iteration order. */
  lemma EncodedEntriesDecode(order: seq<string>, s: ToggleSet)
    requires IterationOrder(order, s)
    ensures DecodeFeatures(Some(EncodeFeatures(order, s)))
         == Success(FirstWins(seq(|order|, i requires 0 <= i < |order| => Normalise(s[order[i]]))))
  {
    var items := seq(|order|, i requires 0 <= i < |order| => EncodeToggle(s[order[i]]));
    var toggles := seq(|order|, i requires 0 <= i < |order| => Normalise(s[order[i]]));
    forall i | 0 <= i < |order| ensures DecodeToggle(items[i]) == Success(toggles[i]) && ValidEntry(items[i]) {
      EntryRoundTrip(s[order[i]]);
      EntryDecodesIffValid(items[i]);
    }
    DecodeEntriesOutcome(items);
    assert DecodeEntries(items).value == toggles;
  }

  lemma NormalisedInOrder(order: seq<string>, s: ToggleSet)
    requires IterationOrder(order, s) && KeysAreNames(s)
    ensures FirstWins(seq(|order|, i requires 0 <= i < |order| => Normalise(s[order[i]]))) == NormaliseSet(s)
  {
    var toggles := seq(|order|, i requires 0 <= i < |order| => Normalise(s[order[i]]));
    var m := FirstWins(toggles);
    assert forall i :: 0 <= i < |order| ==> toggles[i].name == order[i];
    forall k | k in s ensures k in m && m[k] == Normalise(s[k]) {
      var i :| 0 <= i < |order| && order[i] == k;
      FirstWinsOfDistinctNames(toggles, i);
    }
    forall k | k in m ensures k in s {
      FirstWinsHoldsFirstOccurrences(toggles);
    }
  }

  /**
   * Storing and reloading a set normalises it exactly when every key is its toggle's name:
   * the encoder writes the toggle's own name and drops the key.
   */
  lemma RoundTripIsNormalisationIff(order: seq<string>, s: ToggleSet)
    requires IterationOrder(order, s)
    ensures DecodeFeatures(Some(EncodeFeatures(order, s))) == Success(NormaliseSet(s)) <==> KeysAreNames(s)
  {
    EncodedEntriesDecode(order, s);
    if KeysAreNames(s) {
      NormalisedInOrder(order, s);
    } else {
      var k :| k in s && s[k].name != k;
      assert NormaliseSet(s)[k].name != k;
      FirstWinsHoldsFirstOccurrences(seq(|order|, i requires 0 <= i < |order| => Normalise(s[order[i]])));
    }
  }

  /** Every set that came out of the decoder is its own normal form. */
  lemma DecodedSetsAreNormal(root: Option<Json>)
    requires DecodeFeatures(root).Success?
    ensures NormalSet(DecodeFeatures(root).value)
  {
    var items := Find(root.value, "toggles").value.items;
    DecodeEntriesOutcome(items);
    var ts := DecodeEntries(items).value;
    FirstWinsHoldsFirstOccurrences(ts);
    forall k | k in FirstWins(ts) ensures Normal(FirstWins(ts)[k]) {
      var i :| 0 <= i < |ts| && ts[i].name == k;
      var f := FirstIndexOf(ts, k, i);
      EntryDecodesIffValid(items[f]);
    }
  }

  lemma {:induction false} FirstIndexOf(ts: seq<Toggle>, name: string, i: nat) returns (f: nat)
    requires i < |ts| && ts[i].name == name
    ensures f <= i && FirstNamed(ts, name, f)
    decreases i
  {
    if j :| 0 <= j < i && ts[j].name == name {
      f := FirstIndexOf(ts, name, j);
    } else {
      f := i;
    }
  }

  /** A normal set is stored without loss, whatever the iteration order. */
  lemma NormalSetsSurviveStorage(order: seq<string>, s: ToggleSet)
    requires IterationOrder(order, s) && NormalSet(s)
    ensures DecodeFeatures(Some(EncodeFeatures(order, s))) == Success(s)
  {
    RoundTripIsNormalisationIff(order, s);
    assert NormaliseSet(s) == s;
  }

  /** decode, encode, decode is decode. */
  lemma DecodeEncodeDecode(root: Option<Json>, order: seq<string>)
    requires DecodeFeatures(root).Success? && IterationOrder(order, DecodeFeatures(root).value)
    ensures DecodeFeatures(Some(EncodeFeatures(order, DecodeFeatures(root).value))) == DecodeFeatures(root)
  {
    DecodedSetsAreNormal(root);
    NormalSetsSurviveStorage(order, DecodeFeatures(root).value);
  }
}
