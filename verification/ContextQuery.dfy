/**
 * The context as a query string and as a JSON body, with the parser that undoes the query printer.
 * Percent-encoding follows sections 2.1 and 2.3 of RFC 3986, the query component its section 3.4.
 */
module ContextQuery {
  import opened Wrappers
  import opened Context
  import opened JsonValue

  /** std::string holds bytes, so every character fits in one. */
  ghost predicate IsBytes(s: string) {
    forall i :: 0 <= i < |s| ==> s[i] as int < 256
  }

  // ---- percent-encoding ----

  predicate Unreserved(c: char) {
    'a' <= c <= 'z' || 'A' <= c <= 'Z' || '0' <= c <= '9' || c == '-' || c == '_' || c == '.' || c == '~'
  }

  const HEX := "0123456789ABCDEF"

  /** The conversion to unsigned char. */
  function ToByte(c: char): char {
    (c as int % 256) as char
  }

  function EncodeChar(c: char): string {
    var b := ToByte(c);
    if Unreserved(b) then [b] else ['%', HEX[b as int / 16], HEX[b as int % 16]]
  }

  /** Section 2.3 of RFC 3986, by character codes: letters, digits, hyphen, full stop, underscore and tilde. */
  lemma UnreservedIs(c: char)
    ensures var n := c as int;
            Unreserved(c) <==> 65 <= n <= 90 || 97 <= n <= 122 || 48 <= n <= 57 || n in {45, 46, 95, 126}
  {
  }

  /** Hexadecimal digits are capitals, as section 2.1 recommends. */
  lemma HexDigitIs(d: nat)
    requires d < 16
    ensures HEX[d] as int == if d < 10 then 48 + d else 55 + d
  {
  }

  /** An unreserved byte stays; any other becomes a per cent sign and its two digits. */
  lemma EncodedCharIs(c: char)
    requires c as int < 256
    ensures Unreserved(c) ==> EncodeChar(c) == [c]
    ensures !Unreserved(c) ==>
              && |EncodeChar(c)| == 3 && EncodeChar(c)[0] == '%'
              && HexValue(EncodeChar(c)[1]) == Some(c as int / 16)
              && HexValue(EncodeChar(c)[2]) == Some(c as int % 16)
  {
    ByteIsItself(c);
    HexDigitValue(c as int / 16);
    HexDigitValue(c as int % 16);
  }

  function PercentEncode(s: string): string {
    if s == "" then "" else EncodeChar(s[0]) + PercentEncode(s[1..])
  }

  lemma {:induction false} EncodeOneMore(s: string, c: char)
    ensures PercentEncode(s + [c]) == PercentEncode(s) + EncodeChar(c)
  {
    if s == "" {
      assert PercentEncode([c]) == EncodeChar(c) + PercentEncode("");
    } else {
      EncodeOneMore(s[1..], c);
      assert (s + [c])[1..] == s[1..] + [c];
    }
  }

  method UrlEncodeContext(value: string) returns (out: string)
    ensures out == PercentEncode(value)
  {
    out := "";
    for i := 0 to |value|
      invariant out == PercentEncode(value[..i])
    {
      EncodeOneMore(value[..i], value[i]);
      assert value[..i + 1] == value[..i] + [value[i]];
      var c := ToByte(value[i]);
      if Unreserved(c) {
        out := out + [c];
      } else {
        out := out + ['%', HEX[c as int / 16], HEX[c as int % 16]];
      }
    }
    assert value[..|value|] == value;
  }

  function HexValue(c: char): Option<nat> {
    if '0' <= c <= '9' then Some(c as int - '0' as int)
    else if 'A' <= c <= 'F' then Some(c as int - 'A' as int + 10)
    else if 'a' <= c <= 'f' then Some(c as int - 'a' as int + 10)
    else None
  }

  function PercentDecode(s: string): Option<string> {
    if s == "" then Some("")
    else if s[0] != '%' then
      match PercentDecode(s[1..])
      case None => None
      case Some(rest) => Some([s[0]] + rest)
    else if |s| < 3 then None
    else
      match (HexValue(s[1]), HexValue(s[2]), PercentDecode(s[3..]))
      case (Some(high), Some(low), Some(rest)) => Some([(16 * high + low) as char] + rest)
      case _ => None
  }

  lemma HexDigitValue(n: nat)
    requires n < 16
    ensures HexValue(HEX[n]) == Some(n)
  {
  }

  lemma DecodeEncodedChar(c: char, rest: string)
    requires PercentDecode(rest).Some?
    ensures PercentDecode(EncodeChar(c) + rest) == Some([ToByte(c)] + PercentDecode(rest).value)
  {
    var b := ToByte(c);
    var s := EncodeChar(c) + rest;
    if Unreserved(b) {
      assert s[1..] == rest;
    } else {
      HexDigitValue(b as int / 16);
      HexDigitValue(b as int % 16);
      assert s[3..] == rest;
      assert 16 * (b as int / 16) + b as int % 16 == b as int;
    }
  }

  lemma ByteIsItself(c: char)
    requires c as int < 256
    ensures ToByte(c) == c
  {
  }

  lemma {:induction false} PercentRoundTrip(s: string)
    requires IsBytes(s)
    ensures PercentDecode(PercentEncode(s)) == Some(s)
  {
    if s != "" {
      PercentRoundTrip(s[1..]);
      DecodeEncodedChar(s[0], PercentEncode(s[1..]));
      ByteIsItself(s[0]);
      assert s == [s[0]] + s[1..];
    }
  }

  /** No delimiter of the query survives encoding. */
  lemma {:induction false} EncodedIsPlain(s: string, delimiter: char)
    requires !Unreserved(delimiter) && delimiter != '%'
    ensures delimiter !in PercentEncode(s)
  {
    if s != "" {
      EncodedIsPlain(s[1..], delimiter);
      assert delimiter !in EncodeChar(s[0]);
    }
  }

  // ---- printing and parsing pairs ----

  type Pair = (string, string)

  ghost predicate BytePairs(pairs: seq<Pair>) {
    forall i :: 0 <= i < |pairs| ==> IsBytes(pairs[i].0) && IsBytes(pairs[i].1)
  }

  function Segment(p: Pair): string {
    PercentEncode(p.0) + "=" + PercentEncode(p.1)
  }

  function Print(pairs: seq<Pair>): string {
    if pairs == [] then ""
    else
      var n := |pairs| - 1;
      Print(pairs[..n]) + (if n == 0 then "?" else "&") + Segment(pairs[n])
  }

  lemma PrintOneMore(pairs: seq<Pair>, p: Pair)
    ensures Print(pairs + [p]) == Print(pairs) + (if pairs == [] then "?" else "&") + Segment(p)
  {
    assert (pairs + [p])[..|pairs|] == pairs;
  }

  lemma {:induction false} PrintStartsWithMark(pairs: seq<Pair>)
    requires pairs != []
    ensures Print(pairs) != "" && Print(pairs)[0] == '?'
  {
    if |pairs| > 1 {
      PrintStartsWithMark(pairs[..|pairs| - 1]);
    }
  }

  function Split(s: string, sep: char): (parts: seq<string>)
    ensures parts != []
  {
    if s == "" then [""]
    else
      var parts := Split(s[1..], sep);
      if s[0] == sep then [""] + parts else [[s[0]] + parts[0]] + parts[1..]
  }

  function ParseSegment(segment: string): Option<Pair> {
    var parts := Split(segment, '=');
    if |parts| != 2 then None
    else
      match (PercentDecode(parts[0]), PercentDecode(parts[1]))
      case (Some(name), Some(value)) => Some((name, value))
      case _ => None
  }

  function ParseSegments(segments: seq<string>): Option<seq<Pair>> {
    if segments == [] then Some([])
    else
      match (ParseSegments(segments[..|segments| - 1]), ParseSegment(segments[|segments| - 1]))
      case (Some(pairs), Some(p)) => Some(pairs + [p])
      case _ => None
  }

  function Parse(query: string): Option<seq<Pair>> {
    if query == "" then Some([])
    else if query[0] != '?' then None
    else ParseSegments(Split(query[1..], '&'))
  }

  lemma {:induction false} SplitPlain(s: string, sep: char)
    requires sep !in s
    ensures Split(s, sep) == [s]
  {
    if s != "" {
      SplitPlain(s[1..], sep);
      assert [s[0]] + s[1..] == s;
    }
  }

  lemma {:induction false} SplitLast(s: string, sep: char, last: string)
    requires sep !in last
    ensures Split(s + [sep] + last, sep) == Split(s, sep) + [last]
  {
    if s == "" {
      assert s + [sep] + last == [sep] + last;
      SplitPlain(last, sep);
    } else {
      SplitLast(s[1..], sep, last);
      assert (s + [sep] + last)[1..] == s[1..] + [sep] + last;
    }
  }

  lemma SegmentParses(p: Pair)
    requires IsBytes(p.0) && IsBytes(p.1)
    ensures ParseSegment(Segment(p)) == Some(p)
    ensures '&' !in Segment(p)
  {
    var name, value := PercentEncode(p.0), PercentEncode(p.1);
    PercentRoundTrip(p.0);
    PercentRoundTrip(p.1);
    EncodedIsPlain(p.0, '=');
    EncodedIsPlain(p.1, '=');
    EncodedIsPlain(p.0, '&');
    EncodedIsPlain(p.1, '&');
    SplitPlain(name, '=');
    SplitLast(name, '=', value);
    assert Split(Segment(p), '=') == [name, value];
  }

  ghost function Segments(pairs: seq<Pair>): seq<string> {
    if pairs == [] then [] else Segments(pairs[..|pairs| - 1]) + [Segment(pairs[|pairs| - 1])]
  }

  lemma {:induction false} SegmentsParse(pairs: seq<Pair>)
    requires BytePairs(pairs)
    ensures ParseSegments(Segments(pairs)) == Some(pairs)
  {
    if pairs != [] {
      var n := |pairs| - 1;
      SegmentsParse(pairs[..n]);
      SegmentParses(pairs[n]);
      var segments := Segments(pairs[..n]);
      assert (segments + [Segment(pairs[n])])[..|segments|] == segments;
      assert pairs[..n] + [pairs[n]] == pairs;
    }
  }

  lemma PrintAfterMark(front: seq<Pair>, p: Pair)
    requires front != []
    ensures Print(front) != "" && Print(front + [p])[1..] == Print(front)[1..] + ['&'] + Segment(p)
  {
    PrintStartsWithMark(front);
    PrintOneMore(front, p);
  }

  lemma OnePairSplits(p: Pair)
    requires IsBytes(p.0) && IsBytes(p.1)
    ensures Print([p]) != "" && Split(Print([p])[1..], '&') == [Segment(p)]
  {
    SegmentParses(p);
    SplitPlain(Segment(p), '&');
    PrintOneMore([], p);
    assert [] + [p] == [p];
    assert Print([p])[1..] == Segment(p);
  }

  lemma {:induction false} PrintedPairsSplit(pairs: seq<Pair>)
    requires BytePairs(pairs) && pairs != []
    ensures Print(pairs) != "" && Split(Print(pairs)[1..], '&') == Segments(pairs)
  {
    var n := |pairs| - 1;
    var front, p := pairs[..n], pairs[n];
    assert pairs == front + [p];
    if n == 0 {
      OnePairSplits(p);
      assert pairs == [p] && Segments(pairs) == [] + [Segment(p)];
    } else {
      PrintedPairsSplit(front);
      SegmentParses(p);
      PrintStartsWithMark(pairs);
      PrintAfterMark(front, p);
      SplitLast(Print(front)[1..], '&', Segment(p));
    }
  }

  /** Splitting at '?', '&' and '=' and percent-decoding undoes the printer. */
  lemma {:induction false} PrintedPairsParse(pairs: seq<Pair>)
    requires BytePairs(pairs)
    ensures Parse(Print(pairs)) == Some(pairs)
  {
    if pairs != [] {
      PrintStartsWithMark(pairs);
      PrintedPairsSplit(pairs);
      SegmentsParse(pairs);
    }
  }

  // ---- the query of a context ----

  function Entry(name: string, value: string): seq<Pair> {
    if value == "" then [] else [(name, value)]
  }

  function OptionalEntry(name: string, value: Option<string>): seq<Pair> {
    if value.None? then [] else Entry(name, value.value)
  }

  function PropertyName(key: string): string {
    "properties[" + key + "]"
  }

  function PropertyEntries(ps: seq<Property>): seq<Pair> {
    if ps == [] then []
    else
      var p := ps[|ps| - 1];
      PropertyEntries(ps[..|ps| - 1]) + (if p.0 == "" then [] else Entry(PropertyName(p.0), p.1))
  }

  function FixedEntries(c: ContextFields): seq<Pair> {
    Entry("appName", c.appName)
    + Entry("sessionId", c.sessionId)
    + OptionalEntry("environment", c.environment)
    + OptionalEntry("userId", c.mutable.userId)
    + OptionalEntry("remoteAddress", c.mutable.remoteAddress)
    + OptionalEntry("currentTime", c.mutable.currentTime)
  }

  /** The non-empty fields of a context, in the order in which they are sent. */
  function NonEmptyFields(c: ContextFields): seq<Pair> {
    FixedEntries(c) + PropertyEntries(c.mutable.properties)
  }

  ghost predicate ByteOption(o: Option<string>) {
    o.Some? ==> IsBytes(o.value)
  }

  ghost predicate ByteContext(c: ContextFields) {
    && IsBytes(c.appName) && IsBytes(c.sessionId) && ByteOption(c.environment)
    && ByteOption(c.mutable.userId) && ByteOption(c.mutable.remoteAddress) && ByteOption(c.mutable.currentTime)
    && BytePairs(c.mutable.properties)
  }

  lemma {:induction false} PropertyEntriesAreBytes(ps: seq<Property>)
    requires BytePairs(ps)
    ensures BytePairs(PropertyEntries(ps))
  {
    if ps != [] {
      PropertyEntriesAreBytes(ps[..|ps| - 1]);
    }
  }

  lemma OneMoreBytePair(pairs: seq<Pair>, name: string, value: Option<string>)
    requires BytePairs(pairs) && IsBytes(name) && ByteOption(value)
    ensures BytePairs(pairs + OptionalEntry(name, value))
  {
  }

  lemma FixedFieldsAreBytes(c: ContextFields)
    requires ByteContext(c)
    ensures BytePairs(FixedEntries(c))
  {
    var e1 := Entry("appName", c.appName);
    var e2 := e1 + Entry("sessionId", c.sessionId);
    var e3 := e2 + OptionalEntry("environment", c.environment);
    var e4 := e3 + OptionalEntry("userId", c.mutable.userId);
    var e5 := e4 + OptionalEntry("remoteAddress", c.mutable.remoteAddress);
    OneMoreBytePair(e1, "sessionId", Some(c.sessionId));
    OneMoreBytePair(e2, "environment", c.environment);
    OneMoreBytePair(e3, "userId", c.mutable.userId);
    OneMoreBytePair(e4, "remoteAddress", c.mutable.remoteAddress);
    OneMoreBytePair(e5, "currentTime", c.mutable.currentTime);
  }

  lemma FieldsAreBytes(c: ContextFields)
    requires ByteContext(c)
    ensures BytePairs(NonEmptyFields(c))
  {
    FixedFieldsAreBytes(c);
    PropertyEntriesAreBytes(c.mutable.properties);
  }

  method Add(query: string, name: string, value: string, ghost sent: seq<Pair>) returns (extended: string)
    requires query == Print(sent)
    ensures extended == Print(sent + Entry(name, value))
  {
    extended := query;
    if value == "" {
      assert sent + [] == sent;
      return;
    }
    var sep := if query == "" then "?" else "&";
    var encodedName := UrlEncodeContext(name);
    var encodedValue := UrlEncodeContext(value);
    extended := extended + sep;
    extended := extended + encodedName;
    extended := extended + "=";
    extended := extended + encodedValue;
    PrintOneMore(sent, (name, value));
    if sent != [] {
      PrintStartsWithMark(sent);
    }
    Associates(query + sep, encodedName, "=", encodedValue);
  }

  lemma Associates(a: string, b: string, c: string, d: string)
    ensures a + b + c + d == a + (b + c + d)
  {
  }

  method AddOptional(query: string, name: string, value: Option<string>, ghost sent: seq<Pair>)
    returns (extended: string)
    requires query == Print(sent)
    ensures extended == Print(sent + OptionalEntry(name, value))
  {
    if value.Some? {
      extended := Add(query, name, value.value, sent);
    } else {
      assert sent + [] == sent;
      extended := query;
    }
  }

  method AddFixedFields(c: ContextFields) returns (query: string)
    ensures query == Print(FixedEntries(c))
  {
    query := Add("", "appName", c.appName, []);
    ghost var sent := [] + Entry("appName", c.appName);
    query := Add(query, "sessionId", c.sessionId, sent);
    sent := sent + Entry("sessionId", c.sessionId);
    query := AddOptional(query, "environment", c.environment, sent);
    sent := sent + OptionalEntry("environment", c.environment);
    query := AddOptional(query, "userId", c.mutable.userId, sent);
    sent := sent + OptionalEntry("userId", c.mutable.userId);
    query := AddOptional(query, "remoteAddress", c.mutable.remoteAddress, sent);
    sent := sent + OptionalEntry("remoteAddress", c.mutable.remoteAddress);
    query := AddOptional(query, "currentTime", c.mutable.currentTime, sent);
    sent := sent + OptionalEntry("currentTime", c.mutable.currentTime);
    assert sent == FixedEntries(c) by {
      assert [] + Entry("appName", c.appName) == Entry("appName", c.appName);
    }
  }

  lemma OneMoreProperty(ps: seq<Property>, i: nat, sent: seq<Pair>)
    requires i < |ps|
    ensures sent + PropertyEntries(ps[..i + 1])
         == if ps[i].0 == "" || ps[i].1 == "" then sent + PropertyEntries(ps[..i])
            else sent + PropertyEntries(ps[..i]) + Entry(PropertyName(ps[i].0), ps[i].1)
  {
    assert ps[..i + 1][..i] == ps[..i];
  }

  method AddProperties(query: string, ps: seq<Property>, ghost sent: seq<Pair>) returns (extended: string)
    requires query == Print(sent)
    ensures extended == Print(sent + PropertyEntries(ps))
  {
    extended := query;
    ghost var added := sent;
    assert sent + [] == sent;
    for i := 0 to |ps|
      invariant added == sent + PropertyEntries(ps[..i])
      invariant extended == Print(added)
    {
      var key, value := ps[i].0, ps[i].1;
      OneMoreProperty(ps, i, sent);
      if key == "" || value == "" {
        continue;
      }
      extended := Add(extended, PropertyName(key), value, added);
      added := added + Entry(PropertyName(key), value);
    }
    assert ps[..|ps|] == ps;
  }

  method BuildContextQuery(c: ContextFields) returns (query: string)
    ensures query == Print(NonEmptyFields(c))
  {
    query := AddFixedFields(c);
    query := AddProperties(query, c.mutable.properties, FixedEntries(c));
  }

  /** The query carries exactly the ordered list of non-empty fields. */
  lemma {:induction false} QueryRoundTrip(c: ContextFields)
    requires ByteContext(c)
    ensures Parse(Print(NonEmptyFields(c))) == Some(NonEmptyFields(c))
  {
    FieldsAreBytes(c);
    PrintedPairsParse(NonEmptyFields(c));
  }

  // ---- the JSON body of a context ----

  function WithOptional(fields: map<string, Json>, name: string, value: Option<string>): map<string, Json> {
    if value.Some? then fields[name := Str(value.value)] else fields
  }

  function PropertiesObject(ps: seq<Property>): map<string, Json> {
    if ps == [] then map[]
    else
      var p := ps[|ps| - 1];
      PropertiesObject(ps[..|ps| - 1])[p.0 := Str(p.1)]
  }

  function BodyFields(c: ContextFields): map<string, Json> {
    var j := map["appName" := Str(c.appName), "sessionId" := Str(c.sessionId)];
    var j := WithOptional(j, "environment", c.environment);
    var j := WithOptional(j, "userId", c.mutable.userId);
    var j := WithOptional(j, "remoteAddress", c.mutable.remoteAddress);
    var j := WithOptional(j, "currentTime", c.mutable.currentTime);
    if c.mutable.properties == [] then j
    else j["properties" := Obj(PropertiesObject(c.mutable.properties))]
  }

  function ContextBody(c: ContextFields): Json {
    Obj(map["context" := Obj(BodyFields(c))])
  }

  method EncodeContextRequestBody(c: ContextFields) returns (body: Json)
    ensures body == ContextBody(c)
  {
    var j := map["appName" := Str(c.appName), "sessionId" := Str(c.sessionId)];
    if c.environment.Some? {
      j := j["environment" := Str(c.environment.value)];
    }
    if c.mutable.userId.Some? {
      j := j["userId" := Str(c.mutable.userId.value)];
    }
    if c.mutable.remoteAddress.Some? {
      j := j["remoteAddress" := Str(c.mutable.remoteAddress.value)];
    }
    if c.mutable.currentTime.Some? {
      j := j["currentTime" := Str(c.mutable.currentTime.value)];
    }
    var ps := c.mutable.properties;
    if ps != [] {
      var properties: map<string, Json> := map[];
      for i := 0 to |ps|
        invariant properties == PropertiesObject(ps[..i])
      {
        assert ps[..i + 1][..i] == ps[..i];
        properties := properties[ps[i].0 := Str(ps[i].1)];
      }
      assert ps[..|ps|] == ps;
      j := j["properties" := Obj(properties)];
    }
    body := Obj(map["context" := Obj(j)]);
  }

  predicate IsPropertyName(name: string) {
    |name| >= 12 && name[..11] == "properties[" && name[|name| - 1] == ']'
  }

  function PropertyKey(name: string): string
    requires IsPropertyName(name)
  {
    name[11..|name| - 1]
  }

  function AsString(j: Option<Json>): Option<string> {
    if IsStr(j) then Some(j.value.s) else None
  }

  /** A field of the posted body under the name that the query gives it. */
  function BodyField(body: Json, name: string): Option<string> {
    match Find(body, "context")
    case None => None
    case Some(context) =>
      if !IsPropertyName(name) then AsString(Find(context, name))
      else
        match Find(context, "properties")
        case None => None
        case Some(properties) => AsString(Find(properties, PropertyKey(name)))
  }

  lemma PropertyNameIsReadBack(key: string)
    ensures IsPropertyName(PropertyName(key)) && PropertyKey(PropertyName(key)) == key
  {
    assert PropertyName(key)[..11] == "properties[";
  }

  lemma PropertyKeyIsWrittenBack(name: string)
    requires IsPropertyName(name)
    ensures PropertyName(PropertyKey(name)) == name
  {
    assert name == name[..11] + name[11..|name| - 1] + [name[|name| - 1]];
  }

  lemma {:induction false} PropertiesObjectKeys(ps: seq<Property>, key: string)
    ensures key in PropertiesObject(ps) <==> exists i :: 0 <= i < |ps| && ps[i].0 == key
  {
    if ps != [] {
      var front := ps[..|ps| - 1];
      PropertiesObjectKeys(front, key);
      if i :| 0 <= i < |ps| && ps[i].0 == key {
        assert i == |front| || front[i].0 == key;
      }
    }
  }

  lemma {:induction false} PropertyEntriesAre(ps: seq<Property>, name: string, value: string)
    requires GoodProperties(ps)
    ensures (name, value) in PropertyEntries(ps) <==>
            && value != "" && IsPropertyName(name)
            && Find(Obj(PropertiesObject(ps)), PropertyKey(name)) == Some(Str(value))
  {
    if ps != [] {
      var n := |ps| - 1;
      var front, p := ps[..n], ps[n];
      PropertyEntriesAre(front, name, value);
      PropertiesObjectKeys(front, p.0);
      PropertyNameIsReadBack(p.0);
      if IsPropertyName(name) {
        PropertyKeyIsWrittenBack(name);
      }
    }
  }

  function FixedField(c: ContextFields, name: string): Option<string> {
    if name == "appName" then Some(c.appName)
    else if name == "sessionId" then Some(c.sessionId)
    else if name == "environment" then c.environment
    else if name == "userId" then c.mutable.userId
    else if name == "remoteAddress" then c.mutable.remoteAddress
    else if name == "currentTime" then c.mutable.currentTime
    else None
  }

  lemma FixedEntriesAre(c: ContextFields, name: string, value: string)
    ensures (name, value) in FixedEntries(c) <==> value != "" && FixedField(c, name) == Some(value)
  {
    var e1, e2 := Entry("appName", c.appName), Entry("sessionId", c.sessionId);
    var e3, e4 := OptionalEntry("environment", c.environment), OptionalEntry("userId", c.mutable.userId);
    var e5 := OptionalEntry("remoteAddress", c.mutable.remoteAddress);
    var e6 := OptionalEntry("currentTime", c.mutable.currentTime);
    var p := (name, value);
    InConcatenation(e1 + e2 + e3 + e4 + e5, e6, p);
    InConcatenation(e1 + e2 + e3 + e4, e5, p);
    InConcatenation(e1 + e2 + e3, e4, p);
    InConcatenation(e1 + e2, e3, p);
    InConcatenation(e1, e2, p);
  }

  lemma InConcatenation<T>(a: seq<T>, b: seq<T>, x: T)
    ensures x in a + b <==> x in a || x in b
  {
  }

  lemma FieldIsPosted(c: ContextFields, name: string)
    ensures AsString(Find(Obj(BodyFields(c)), name)) == FixedField(c, name)
  {
  }

  lemma FixedBodyFields(c: ContextFields, name: string)
    ensures !IsPropertyName(name) ==> BodyField(ContextBody(c), name) == FixedField(c, name)
    ensures IsPropertyName(name) ==> FixedField(c, name) == None
  {
    assert Find(ContextBody(c), "context") == Some(Obj(BodyFields(c)));
    if IsPropertyName(name) {
      assert name[0] == 'p' && FixedField(c, name) == None;
    } else {
      FieldIsPosted(c, name);
    }
  }

  /** The name under which each field is sent, and posted. */
  lemma FieldsAreNamed(c: ContextFields)
    ensures FixedField(c, "appName") == Some(c.appName) && FixedField(c, "sessionId") == Some(c.sessionId)
    ensures FixedField(c, "environment") == c.environment && FixedField(c, "userId") == c.mutable.userId
    ensures FixedField(c, "remoteAddress") == c.mutable.remoteAddress
    ensures FixedField(c, "currentTime") == c.mutable.currentTime
  {
  }

  /** The fields of the query by name: each is there exactly if it is set and not empty, and no other is. */
  lemma QueryFieldIs(c: ContextFields, name: string, value: string)
    ensures ("appName", value) in FixedEntries(c) <==> value != "" && c.appName == value
    ensures ("sessionId", value) in FixedEntries(c) <==> value != "" && c.sessionId == value
    ensures ("environment", value) in FixedEntries(c) <==> value != "" && c.environment == Some(value)
    ensures ("userId", value) in FixedEntries(c) <==> value != "" && c.mutable.userId == Some(value)
    ensures ("remoteAddress", value) in FixedEntries(c) <==> value != "" && c.mutable.remoteAddress == Some(value)
    ensures ("currentTime", value) in FixedEntries(c) <==> value != "" && c.mutable.currentTime == Some(value)
    ensures (name, value) in FixedEntries(c) ==>
              name in {"appName", "sessionId", "environment", "userId", "remoteAddress", "currentTime"}
  {
    FieldsAreNamed(c);
    FixedEntriesAre(c, "appName", value);
    FixedEntriesAre(c, "sessionId", value);
    FixedEntriesAre(c, "environment", value);
    FixedEntriesAre(c, "userId", value);
    FixedEntriesAre(c, "remoteAddress", value);
    FixedEntriesAre(c, "currentTime", value);
    FixedEntriesAre(c, name, value);
  }

  /** The order, when no field is empty: the fixed fields, then the properties as they are listed. */
  lemma FieldOrder(c: ContextFields, k: nat)
    requires c.appName != "" && c.sessionId != "" && k < |c.mutable.properties|
    requires c.environment.Some? && c.environment.value != ""
    requires c.mutable.userId.Some? && c.mutable.userId.value != ""
    requires c.mutable.remoteAddress.Some? && c.mutable.remoteAddress.value != ""
    requires c.mutable.currentTime.Some? && c.mutable.currentTime.value != ""
    requires forall i :: 0 <= i < |c.mutable.properties| ==>
               c.mutable.properties[i].0 != "" && c.mutable.properties[i].1 != ""
    ensures |NonEmptyFields(c)| == 6 + |c.mutable.properties|
    ensures NonEmptyFields(c)[..6] ==
              [("appName", c.appName), ("sessionId", c.sessionId), ("environment", c.environment.value),
               ("userId", c.mutable.userId.value), ("remoteAddress", c.mutable.remoteAddress.value),
               ("currentTime", c.mutable.currentTime.value)]
    ensures NonEmptyFields(c)[6 + k] == ("properties[" + c.mutable.properties[k].0 + "]", c.mutable.properties[k].1)
  {
    PropertyOrder(c.mutable.properties, k);
    assert |FixedEntries(c)| == 6;
  }

  lemma {:induction false} PropertyOrder(ps: seq<Property>, k: nat)
    requires k < |ps| && forall i :: 0 <= i < |ps| ==> ps[i].0 != "" && ps[i].1 != ""
    ensures |PropertyEntries(ps)| == |ps| && PropertyEntries(ps)[k] == ("properties[" + ps[k].0 + "]", ps[k].1)
  {
    var n := |ps| - 1;
    if n > 0 {
      PropertyOrder(ps[..n], if k < n then k else 0);
    }
  }

  /** Posting and getting carry the same context: the query is the body without its empty values. */
  lemma QueryAndBodyAgree(c: ContextFields, name: string, value: string)
    requires GoodProperties(c.mutable.properties)
    ensures (name, value) in NonEmptyFields(c) <==> value != "" && BodyField(ContextBody(c), name) == Some(value)
  {
    FixedEntriesAre(c, name, value);
    FixedBodyFields(c, name);
    PropertyEntriesAre(c.mutable.properties, name, value);
  }

  /** Contexts sent as the same query agree on every non-empty field. */
  lemma {:induction false} SameQuerySameFields(a: ContextFields, b: ContextFields, name: string, value: string)
    requires ByteContext(a) && GoodProperties(a.mutable.properties)
    requires ByteContext(b) && GoodProperties(b.mutable.properties)
    ensures Print(NonEmptyFields(a)) == Print(NonEmptyFields(b)) && value != ""
      ==> (BodyField(ContextBody(a), name) == Some(value) <==> BodyField(ContextBody(b), name) == Some(value))
  {
    QueryRoundTrip(a);
    QueryRoundTrip(b);
    QueryAndBodyAgree(a, name, value);
    QueryAndBodyAgree(b, name, value);
  }

  ghost predicate DistinctNames(pairs: seq<Pair>, within: set<string>) {
    && (forall i :: 0 <= i < |pairs| ==> pairs[i].0 in within)
    && forall i, j :: 0 <= i < j < |pairs| ==> pairs[i].0 != pairs[j].0
  }

  lemma OneMoreName(pairs: seq<Pair>, within: set<string>, name: string, value: Option<string>)
    requires DistinctNames(pairs, within) && name !in within
    ensures DistinctNames(pairs + OptionalEntry(name, value), within + {name})
  {
  }

  lemma {:induction false} PropertyNamesAreDistinct(ps: seq<Property>)
    requires GoodProperties(ps)
    ensures DistinctNames(PropertyEntries(ps), set i | 0 <= i < |ps| :: PropertyName(ps[i].0))
  {
    if ps != [] {
      var n := |ps| - 1;
      var front := ps[..n];
      var within := set i | 0 <= i < n :: PropertyName(front[i].0);
      PropertyNamesAreDistinct(front);
      PropertyNameIsReadBack(ps[n].0);
      forall i | 0 <= i < n ensures PropertyName(front[i].0) != PropertyName(ps[n].0) {
        PropertyNameIsReadBack(front[i].0);
      }
      OneMoreName(PropertyEntries(front), within, PropertyName(ps[n].0), Some(ps[n].1));
      assert within + {PropertyName(ps[n].0)} <= set i | 0 <= i < |ps| :: PropertyName(ps[i].0) by {
        forall name | name in within ensures name in set i | 0 <= i < |ps| :: PropertyName(ps[i].0) {
          var i :| 0 <= i < n && PropertyName(front[i].0) == name;
          assert name == PropertyName(ps[i].0);
        }
        assert PropertyName(ps[n].0) in set i | 0 <= i < |ps| :: PropertyName(ps[i].0);
      }
    }
  }

  lemma FixedNamesAreDistinct(c: ContextFields)
    ensures DistinctNames(FixedEntries(c),
      {"appName", "sessionId", "environment", "userId", "remoteAddress", "currentTime"})
  {
    var e1 := Entry("appName", c.appName);
    var e2 := e1 + Entry("sessionId", c.sessionId);
    var e3 := e2 + OptionalEntry("environment", c.environment);
    var e4 := e3 + OptionalEntry("userId", c.mutable.userId);
    var e5 := e4 + OptionalEntry("remoteAddress", c.mutable.remoteAddress);
    OneMoreName(e1, {"appName"}, "sessionId", Some(c.sessionId));
    OneMoreName(e2, {"appName", "sessionId"}, "environment", c.environment);
    OneMoreName(e3, {"appName", "sessionId", "environment"}, "userId", c.mutable.userId);
    OneMoreName(e4, {"appName", "sessionId", "environment", "userId"}, "remoteAddress", c.mutable.remoteAddress);
    OneMoreName(e5, {"appName", "sessionId", "environment", "userId", "remoteAddress"},
      "currentTime", c.mutable.currentTime);
  }

  /** No two query parameters of a context share a name. */
  lemma NoNameCollisions(c: ContextFields, i: nat, j: nat)
    requires GoodProperties(c.mutable.properties) && i < j < |NonEmptyFields(c)|
    ensures NonEmptyFields(c)[i].0 != NonEmptyFields(c)[j].0
  {
    var fixed, ps := FixedEntries(c), c.mutable.properties;
    FixedNamesAreDistinct(c);
    PropertyNamesAreDistinct(ps);
    if i < |fixed| <= j {
      var entry := PropertyEntries(ps)[j - |fixed|];
      var k :| 0 <= k < |ps| && entry.0 == PropertyName(ps[k].0);
      PropertyNameIsReadBack(ps[k].0);
      FixedBodyFields(c, fixed[i].0);
      assert (fixed[i].0, fixed[i].1) in FixedEntries(c);
      FixedEntriesAre(c, fixed[i].0, fixed[i].1);
    }
  }
}
