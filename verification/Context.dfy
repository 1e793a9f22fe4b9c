/** Evaluation contexts: fixed identity fields, and mutable fields with a property list. */
module Context {
  import opened Wrappers

  type Property = (string, string)

  const DEFAULT_APP_NAME: string := "unleash-client-app"

  predicate Reserved(key: string) {
    || key == "appName" || key == "environment" || key == "userId"
    || key == "sessionId" || key == "remoteAddress" || key == "currentTime"
  }

  predicate Settable(key: string) {
    key != "" && !Reserved(key)
  }

  /** The names of the context's own fields cannot be set as properties. */
  lemma SettableIs(key: string)
    ensures Settable(key) <==>
              key !in {"", "appName", "environment", "userId", "sessionId", "remoteAddress", "currentTime"}
  {
  }

  datatype MutableFields = MutableFields(
    userId: Option<string>, remoteAddress: Option<string>, currentTime: Option<string>, properties: seq<Property>)

  datatype ContextFields = ContextFields(
    appName: string, sessionId: string, environment: Option<string>, mutable: MutableFields)

  // ---- the property list ----

  ghost predicate DistinctKeys(ps: seq<Property>) {
    forall i, j :: 0 <= i < j < |ps| ==> ps[i].0 != ps[j].0
  }

  ghost predicate GoodProperties(ps: seq<Property>) {
    DistinctKeys(ps) && forall i :: 0 <= i < |ps| ==> Settable(ps[i].0)
  }

  /** Overwrite in place when the key is present, append otherwise. */
  function Put(ps: seq<Property>, key: string, value: string): seq<Property> {
    if ps == [] then [(key, value)]
    else if ps[0].0 == key then [(key, value)] + ps[1..]
    else [ps[0]] + Put(ps[1..], key, value)
  }

  function PutSettable(ps: seq<Property>, write: Property): seq<Property> {
    if Settable(write.0) then Put(ps, write.0, write.1) else ps
  }

  lemma {:induction false} PutOverwrites(ps: seq<Property>, i: nat, value: string)
    requires i < |ps| && forall j :: 0 <= j < i ==> ps[j].0 != ps[i].0
    ensures Put(ps, ps[i].0, value) == ps[i := (ps[i].0, value)]
  {
    if i > 0 {
      PutOverwrites(ps[1..], i - 1, value);
    }
  }

  lemma {:induction false} PutAppends(ps: seq<Property>, key: string, value: string)
    requires forall j :: 0 <= j < |ps| ==> ps[j].0 != key
    ensures Put(ps, key, value) == ps + [(key, value)]
  {
    if ps != [] {
      PutAppends(ps[1..], key, value);
    }
  }

  /** The list after a sequence of setProperty calls on an empty context. */
  function AfterWrites(writes: seq<Property>): seq<Property> {
    if writes == [] then [] else PutSettable(AfterWrites(writes[..|writes| - 1]), writes[|writes| - 1])
  }

  predicate Written(writes: seq<Property>, key: string) {
    exists i :: 0 <= i < |writes| && writes[i].0 == key
  }

  function FirstWrite(writes: seq<Property>, key: string): (i: nat)
    requires Written(writes, key)
    ensures i < |writes| && writes[i].0 == key
    ensures forall j :: 0 <= j < i ==> writes[j].0 != key
  {
    if writes[0].0 == key then 0 else 1 + FirstWrite(writes[1..], key)
  }

  function LastWrite(writes: seq<Property>, key: string): (i: nat)
    requires Written(writes, key)
    ensures i < |writes| && writes[i].0 == key
    ensures forall j :: i < j < |writes| ==> writes[j].0 != key
  {
    var n := |writes| - 1;
    if writes[n].0 == key then n else LastWrite(writes[..n], key)
  }

  /** p lists the settable keys written, each with its last value, in the order of their first writes. */
  ghost predicate LastValuesInFirstWriteOrder(writes: seq<Property>, p: seq<Property>) {
    && GoodProperties(p)
    && (forall k :: Settable(k) && Written(writes, k) ==> exists i :: 0 <= i < |p| && p[i].0 == k)
    && (forall i :: 0 <= i < |p| ==>
          Written(writes, p[i].0) && p[i].1 == writes[LastWrite(writes, p[i].0)].1)
    && (forall i, j :: 0 <= i < j < |p| ==> FirstWrite(writes, p[i].0) < FirstWrite(writes, p[j].0))
  }

  lemma {:induction false} PropertiesAreLastWrites(writes: seq<Property>)
    ensures LastValuesInFirstWriteOrder(writes, AfterWrites(writes))
  {
    if writes != [] {
      PropertiesAreLastWrites(writes[..|writes| - 1]);
      OneMoreWrite(writes, AfterWrites(writes[..|writes| - 1]));
    }
  }

  /** How the last write changes what was written, where it was first written, and where last. */
  lemma WritesGrow(writes: seq<Property>, k: string)
    requires writes != []
    ensures var n := |writes| - 1; var front := writes[..n];
            && (Written(writes, k) <==> Written(front, k) || writes[n].0 == k)
            && (Written(front, k) ==> FirstWrite(writes, k) == FirstWrite(front, k))
            && (Written(front, k) && writes[n].0 != k ==> LastWrite(writes, k) == LastWrite(front, k))
            && (writes[n].0 == k ==> LastWrite(writes, k) == n)
            && (writes[n].0 == k && !Written(front, k) ==> FirstWrite(writes, k) == n)
  {
    var n := |writes| - 1;
    var front := writes[..n];
    if Written(front, k) {
      var f := FirstWrite(front, k);
      assert writes[f].0 == k;
      assert forall j :: 0 <= j < f ==> writes[j].0 == front[j].0;
    }
    if Written(writes, k) && writes[n].0 != k {
      var i := FirstWrite(writes, k);
      assert front[i].0 == k;
    }
  }

  lemma OneMoreWrite(writes: seq<Property>, p: seq<Property>)
    requires writes != [] && LastValuesInFirstWriteOrder(writes[..|writes| - 1], p)
    ensures LastValuesInFirstWriteOrder(writes, PutSettable(p, writes[|writes| - 1]))
  {
    var n := |writes| - 1;
    var front, last := writes[..n], writes[n];
    var q := PutSettable(p, last);
    PutSettableEffect(front, p, last);
    forall k | Settable(k) && Written(writes, k) ensures exists i :: 0 <= i < |q| && q[i].0 == k {
      WritesGrow(writes, k);
      if k != last.0 {
        var i :| 0 <= i < |p| && p[i].0 == k;
        assert q[i].0 == k;
      }
    }
    forall i | 0 <= i < |q|
      ensures Written(writes, q[i].0) && q[i].1 == writes[LastWrite(writes, q[i].0)].1
    {
      WritesGrow(writes, q[i].0);
    }
    forall i, j | 0 <= i < j < |q| ensures FirstWrite(writes, q[i].0) < FirstWrite(writes, q[j].0) {
      WritesGrow(writes, q[i].0);
      WritesGrow(writes, q[j].0);
    }
  }

  /** What one accepted or rejected write does to a good list. */
  ghost predicate OneWrite(p: seq<Property>, q: seq<Property>, last: Property, written: bool) {
    && GoodProperties(q) && |p| <= |q| <= |p| + 1
    && (forall i :: 0 <= i < |p| ==> q[i].0 == p[i].0)
    && (forall i :: 0 <= i < |p| && q[i].0 != last.0 ==> q[i].1 == p[i].1)
    && (forall i :: 0 <= i < |q| && q[i].0 == last.0 ==> q[i].1 == last.1)
    && (|q| > |p| ==> q[|p|] == last && !written)
    && (Settable(last.0) ==> exists i :: 0 <= i < |q| && q[i].0 == last.0)
  }

  lemma OverwritingIsOneWrite(p: seq<Property>, i: nat, last: Property, written: bool)
    requires GoodProperties(p) && i < |p| && p[i].0 == last.0
    ensures OneWrite(p, p[i := last], last, written)
  {
    assert p[i := last][i].0 == last.0;
  }

  lemma AppendingIsOneWrite(p: seq<Property>, last: Property)
    requires GoodProperties(p) && Settable(last.0) && forall i :: 0 <= i < |p| ==> p[i].0 != last.0
    ensures OneWrite(p, p + [last], last, false)
  {
    assert (p + [last])[|p|].0 == last.0;
  }

  lemma PutSettableEffect(front: seq<Property>, p: seq<Property>, last: Property)
    requires LastValuesInFirstWriteOrder(front, p)
    ensures OneWrite(p, PutSettable(p, last), last, Written(front, last.0))
  {
    if !Settable(last.0) {
      assert forall i :: 0 <= i < |p| ==> p[i].0 != last.0;
    } else if i :| 0 <= i < |p| && p[i].0 == last.0 {
      PutOverwrites(p, i, last.1);
      OverwritingIsOneWrite(p, i, last, Written(front, last.0));
    } else {
      PutAppends(p, last.0, last.1);
      AppendingIsOneWrite(p, last);
    }
  }

  // ---- the classes ----

  class MutableContext {
    var userId: Option<string>
    var remoteAddress: Option<string>
    var currentTime: Option<string>
    var properties: seq<Property>

    function View(): MutableFields
      reads this
    {
      MutableFields(userId, remoteAddress, currentTime, properties)
    }

    ghost predicate Valid()
      reads this
    {
      GoodProperties(properties)
    }

    constructor ()
      ensures Valid() && View() == MutableFields(None, None, None, [])
    {
      userId, remoteAddress, currentTime, properties := None, None, None, [];
    }

    method SetUserId(id: string)
      modifies this
      ensures View() == old(View()).(userId := if id == "" then None else Some(id))
    {
      if id == "" {
        userId := None;
      } else {
        userId := Some(id);
      }
    }

    method SetRemoteAddress(address: string)
      modifies this
      ensures View() == old(View()).(remoteAddress := if address == "" then None else Some(address))
    {
      if address == "" {
        remoteAddress := None;
      } else {
        remoteAddress := Some(address);
      }
    }

    /** now is the clock's current timestamp. */
    method SetCurrentTime(now: string)
      modifies this
      ensures View() == old(View()).(currentTime := Some(now))
    {
      currentTime := Some(now);
    }

    method SetProperty(key: string, value: string)
      requires Valid()
      modifies this
      ensures Valid()
      ensures View() == old(View()).(properties := PutSettable(old(properties), (key, value)))
    {
      if key == "" || Reserved(key) {
        return;
      }
      var i := 0;
      while i < |properties| && properties[i].0 != key
        invariant 0 <= i <= |properties|
        invariant forall j :: 0 <= j < i ==> properties[j].0 != key
      {
        i := i + 1;
      }
      if i < |properties| {
        PutOverwrites(properties, i, value);
        properties := properties[i := (properties[i].0, value)];
      } else {
        PutAppends(properties, key, value);
        properties := properties + [(key, value)];
      }
    }

    /** Value assignment. */
    method Assign(other: MutableContext)
      requires other.Valid()
      modifies this
      ensures Valid() && View() == old(other.View())
    {
      userId, remoteAddress := other.userId, other.remoteAddress;
      currentTime, properties := other.currentTime, other.properties;
    }
  }

  /** Any sequence of setProperty calls leaves the last value written under each settable key. */
  method SetProperties(writes: seq<Property>) returns (c: MutableContext)
    ensures fresh(c) && c.Valid() && LastValuesInFirstWriteOrder(writes, c.properties)
  {
    c := new MutableContext();
    for i := 0 to |writes|
      invariant fresh(c) && c.Valid() && c.properties == AfterWrites(writes[..i])
    {
      assert writes[..i + 1][..i] == writes[..i];
      c.SetProperty(writes[i].0, writes[i].1);
    }
    assert writes[..|writes|] == writes;
    PropertiesAreLastWrites(writes);
  }

  function UpdateMutable(c: ContextFields, m: MutableFields): ContextFields {
    c.(mutable := m)
  }

  /** An update replaces every mutable field, absent ones included, and no identity field. */
  lemma UpdateReplaces(c: ContextFields, m: MutableFields)
    ensures var d := UpdateMutable(c, m);
            d.mutable == m && d.appName == c.appName && d.sessionId == c.sessionId && d.environment == c.environment
  {
  }

  ghost predicate GoodContext(c: ContextFields) {
    && c.appName != "" && c.sessionId != ""
    && (c.environment.Some? ==> c.environment.value != "")
    && GoodProperties(c.mutable.properties)
  }

  class ContextObject {
    var appName: string
    var sessionId: string
    var environment: Option<string>
    const mutable: MutableContext

    function View(): ContextFields
      reads this, mutable
    {
      ContextFields(appName, sessionId, environment, mutable.View())
    }

    /** drawn is the random session id used when none is given. */
    constructor (appName: string, environment: string, sessionId: string, drawn: string)
      requires drawn != ""
      ensures fresh(mutable) && GoodContext(View())
      ensures View() == ContextFields(
        if appName == "" then "unleash-client-app" else appName,
        if sessionId == "" then drawn else sessionId,
        if environment == "" then None else Some(environment),
        MutableFields(None, None, None, []))
    {
      this.appName := if appName == "" then DEFAULT_APP_NAME else appName;
      this.sessionId := if sessionId == "" then drawn else sessionId;
      this.environment := if environment == "" then None else Some(environment);
      mutable := new MutableContext();
    }

    method SetProperty(key: string, value: string)
      requires GoodContext(View())
      modifies mutable
      ensures GoodContext(View())
      ensures View() == UpdateMutable(old(View()),
        old(mutable.View()).(properties := PutSettable(old(mutable.properties), (key, value))))
      ensures appName == old(appName) && sessionId == old(sessionId) && environment == old(environment)
    {
      mutable.SetProperty(key, value);
    }

    method UpdateMutableContext(other: MutableContext)
      requires GoodContext(View()) && other.Valid()
      modifies mutable
      ensures GoodContext(View())
      ensures View() == UpdateMutable(old(View()), old(other.View()))
      ensures mutable.View() == old(other.View())
      ensures appName == old(appName) && sessionId == old(sessionId) && environment == old(environment)
    {
      mutable.Assign(other);
    }
  }
}
