/** Header names and values: lower-casing, trimming, and the response-header callback. */
module HttpHeaders {
  import opened Wrappers

  // ---- lower-casing, in the C locale ----

  function LowerChar(c: char): char {
    if 'A' <= c <= 'Z' then (c as int + 32) as char else c
  }

  function LowerCase(s: string): string {
    seq(|s|, i requires 0 <= i < |s| => LowerChar(s[i]))
  }

  /** The letters 65 to 90 become 97 to 122, all other characters stay. */
  lemma LowerCaseIs(s: string, i: nat)
    requires i < |s|
    ensures |LowerCase(s)| == |s|
    ensures LowerCase(s)[i] as int == if 65 <= s[i] as int <= 90 then s[i] as int + 32 else s[i] as int
  {
  }

  lemma TagHeaderName()
    ensures LowerCase("ETag") == "etag" && LowerCase("If-None-Match") == "if-none-match"
  {
    assert |LowerCase("ETag")| == 4 && |LowerCase("If-None-Match")| == 13;
  }

  /** Two names differ only in case exactly when their lower-case forms are equal; lowering again changes nothing. */
  lemma LowerCaseIsIdempotent(s: string)
    ensures LowerCase(LowerCase(s)) == LowerCase(s)
  {
    assert forall i :: 0 <= i < |s| ==> LowerCase(LowerCase(s))[i] == LowerCase(s)[i];
  }

  // ---- trimming ----

  const WHITESPACE := " \t\r\n"

  function FirstNotOf(s: string, chars: string): (i: Option<nat>)
    ensures i.None? <==> forall j :: 0 <= j < |s| ==> s[j] in chars
    ensures i.Some? ==> i.value < |s| && s[i.value] !in chars && forall j :: 0 <= j < i.value ==> s[j] in chars
  {
    if s == "" then None
    else if s[0] !in chars then Some(0)
    else
      match FirstNotOf(s[1..], chars)
      case None => None
      case Some(i) => assert forall j :: 0 < j <= i ==> s[j] == s[1..][j - 1]; Some(i + 1)
  }

  function LastNotOf(s: string, chars: string): (i: Option<nat>)
    ensures i.None? <==> forall j :: 0 <= j < |s| ==> s[j] in chars
    ensures i.Some? ==> i.value < |s| && s[i.value] !in chars && forall j :: i.value < j < |s| ==> s[j] in chars
  {
    var n := |s| - 1;
    if s == "" then None
    else if s[n] !in chars then Some(n)
    else LastNotOf(s[..n], chars)
  }

  function TrimString(s: string, whitespace: string): string {
    match (FirstNotOf(s, whitespace), LastNotOf(s, whitespace))
    case (Some(start), Some(end)) => if start <= end then s[start..end + 1] else ""
    case _ => ""
  }

  function Trim(s: string): string {
    TrimString(s, WHITESPACE)
  }

  lemma WhitespaceIs(c: char)
    ensures c in WHITESPACE <==> c == ' ' || c == '\t' || c == '\r' || c == '\n'
  {
  }

  ghost predicate AllIn(s: string, chars: string) {
    forall i :: 0 <= i < |s| ==> s[i] in chars
  }

  ghost predicate EndsNotIn(s: string, chars: string) {
    s != "" ==> s[0] !in chars && s[|s| - 1] !in chars
  }

  ghost predicate AllWhitespace(s: string) {
    AllIn(s, WHITESPACE)
  }

  ghost predicate Trimmed(s: string) {
    EndsNotIn(s, WHITESPACE)
  }

  lemma FirstBeforeLast(s: string, chars: string, i: nat, j: nat)
    requires FirstNotOf(s, chars) == Some(i) && LastNotOf(s, chars) == Some(j)
    ensures i <= j < |s| && s[i] !in chars && s[j] !in chars
    ensures forall k :: 0 <= k < i || j < k < |s| ==> s[k] in chars
  {
  }

  lemma EndsOfSlice(s: string, chars: string, i: nat, j: nat)
    requires i <= j < |s| && s[i] !in chars && s[j] !in chars
    requires forall k :: 0 <= k < i || j < k < |s| ==> s[k] in chars
    ensures AllIn(s[..i], chars) && AllIn(s[j + 1..], chars) && EndsNotIn(s[i..j + 1], chars)
    ensures s == s[..i] + s[i..j + 1] + s[j + 1..]
  {
    var core, after := s[i..j + 1], s[j + 1..];
    assert core[0] == s[i] && core[|core| - 1] == s[j];
    assert forall k :: 0 <= k < |after| ==> after[k] == s[j + 1 + k];
  }

  lemma TrimStringSplits(s: string, chars: string) returns (before: string, after: string)
    ensures AllIn(before, chars) && AllIn(after, chars) && EndsNotIn(TrimString(s, chars), chars)
    ensures s == before + TrimString(s, chars) + after
  {
    var first, last := FirstNotOf(s, chars), LastNotOf(s, chars);
    if first.None? {
      before, after := s, "";
      assert s + "" + "" == s;
    } else {
      FirstBeforeLast(s, chars, first.value, last.value);
      EndsOfSlice(s, chars, first.value, last.value);
      before, after := s[..first.value], s[last.value + 1..];
    }
  }

  /** Every string is its trimmed form between two stretches of white space. */
  lemma TrimSplits(s: string) returns (before: string, after: string)
    ensures AllWhitespace(before) && AllWhitespace(after) && Trimmed(Trim(s))
    ensures s == before + Trim(s) + after
  {
    before, after := TrimStringSplits(s, WHITESPACE);
  }

  lemma {:induction false} TrimStringRemovesPadding(before: string, core: string, after: string, chars: string)
    requires AllIn(before, chars) && AllIn(after, chars) && EndsNotIn(core, chars)
    ensures TrimString(before + core + after, chars) == core
  {
    var s := before + core + after;
    if core == "" {
      assert forall i :: 0 <= i < |s| ==> s[i] in chars;
    } else {
      var n := |before|;
      assert s[n] == core[0] && s[n + |core| - 1] == core[|core| - 1];
      assert forall i :: 0 <= i < n ==> s[i] == before[i];
      assert forall i :: n + |core| <= i < |s| ==> s[i] == after[i - n - |core|];
      assert FirstNotOf(s, chars) == Some(n);
      assert LastNotOf(s, chars) == Some(n + |core| - 1);
      assert s[n..n + |core|] == core;
    }
  }

  /** And in no other way: whatever white space surrounds a trimmed string, trimming gives that string. */
  lemma {:induction false} TrimRemovesPadding(before: string, core: string, after: string)
    requires AllWhitespace(before) && AllWhitespace(after) && Trimmed(core)
    ensures Trim(before + core + after) == core
  {
    TrimStringRemovesPadding(before, core, after, WHITESPACE);
  }

  // ---- the header callback ----

  function Colon(line: string): (i: Option<nat>)
    ensures i.None? <==> ':' !in line
    ensures i.Some? ==> i.value < |line| && line[i.value] == ':' && ':' !in line[..i.value]
  {
    if line == "" then None
    else if line[0] == ':' then Some(0)
    else
      match Colon(line[1..])
      case None => None
      case Some(i) => assert line[..i + 1] == [line[0]] + line[1..][..i]; Some(i + 1)
  }

  function AddHeaderLine(headers: map<string, string>, line: string): map<string, string> {
    match Colon(line)
    case None => headers
    case Some(pos) =>
      var key := LowerCase(line[..pos]);
      var value := Trim(line[pos + 1..]);
      if key == "" || value == "" then headers else headers[key := value]
  }

  class ResponseHeaders {
    var headers: map<string, string>

    constructor ()
      ensures headers == map[]
    {
      headers := map[];
    }

    method HeaderCb(line: string) returns (consumed: nat)
      modifies this
      ensures headers == AddHeaderLine(old(headers), line) && consumed == |line|
    {
      var pos := Colon(line);
      if pos.Some? {
        var key := line[..pos.value];
        var value := Trim(line[pos.value + 1..]);
        var i := 0;
        ghost var name := key;
        while i < |key|
          invariant 0 <= i <= |key| == |name|
          invariant forall j :: 0 <= j < i ==> key[j] == LowerChar(name[j])
          invariant forall j :: i <= j < |key| ==> key[j] == name[j]
        {
          key := key[i := LowerChar(key[i])];
          i := i + 1;
        }
        assert key == LowerCase(name);
        if key != "" && value != "" {
          headers := headers[key := value];
        }
      }
      consumed := |line|;
    }
  }

  lemma {:induction false} ColonAfterName(name: string, rest: string)
    requires ':' !in name
    ensures Colon(name + ":" + rest) == Some(|name|)
  {
    if name != "" {
      ColonAfterName(name[1..], rest);
      assert (name + ":" + rest)[1..] == name[1..] + ":" + rest;
    }
  }

  lemma LineWithColon(headers: map<string, string>, name: string, rest: string)
    requires ':' !in name
    ensures AddHeaderLine(headers, name + ":" + rest)
         == if name == "" || Trim(rest) == "" then headers else headers[LowerCase(name) := Trim(rest)]
  {
    var line := name + ":" + rest;
    ColonAfterName(name, rest);
    assert line[..|name|] == name && line[|name| + 1..] == rest;
    assert |LowerCase(name)| == |name|;
  }

  /** A header line is read back whatever the case of its name and the white space around its value. */
  lemma HeaderLineIsRead(headers: map<string, string>, name: string, before: string, value: string, after: string)
    requires name != "" && ':' !in name
    requires AllWhitespace(before) && AllWhitespace(after) && Trimmed(value) && value != ""
    ensures AddHeaderLine(headers, name + ":" + before + value + after) == headers[LowerCase(name) := value]
  {
    var rest := before + value + after;
    assert name + ":" + before + value + after == name + ":" + rest;
    LineWithColon(headers, name, rest);
    TrimRemovesPadding(before, value, after);
  }

  /** A line without a colon, without a name, or with nothing but white space for its value is ignored. */
  lemma OtherLinesAreIgnored(headers: map<string, string>, name: string, blank: string)
    requires ':' !in name && AllWhitespace(blank)
    ensures AddHeaderLine(headers, name) == headers
    ensures AddHeaderLine(headers, name + ":" + blank) == headers
  {
    LineWithColon(headers, name, blank);
    TrimRemovesPadding(blank, "", "");
    assert blank + "" + "" == blank;
  }

  lemma NamelessLineIsIgnored(headers: map<string, string>, rest: string)
    ensures AddHeaderLine(headers, ":" + rest) == headers
  {
    assert "" + ":" + rest == ":" + rest;
    LineWithColon(headers, "", rest);
  }

  ghost predicate GoodHeaders(headers: map<string, string>) {
    forall k :: k in headers ==> headers[k] != "" && Trimmed(headers[k]) && LowerCase(k) == k
  }

  function AddHeaderLines(headers: map<string, string>, lines: seq<string>): map<string, string> {
    if lines == [] then headers
    else AddHeaderLine(AddHeaderLines(headers, lines[..|lines| - 1]), lines[|lines| - 1])
  }

  /** Whatever lines arrive, names are lower-case and values are trimmed and non-empty. */
  lemma {:induction false} ParsedHeadersAreGood(lines: seq<string>)
    ensures GoodHeaders(AddHeaderLines(map[], lines))
  {
    if lines != [] {
      var n := |lines| - 1;
      ParsedHeadersAreGood(lines[..n]);
      var pos := Colon(lines[n]);
      if pos.Some? {
        LowerCaseIsIdempotent(lines[n][..pos.value]);
        var before, after := TrimSplits(lines[n][pos.value + 1..]);
      }
    }
  }
}
