/** The conditional request to the frontend API: request headers, status classification, and the ETag kept. */
module ToggleFetcher {
  import opened Wrappers
  import opened Domain
  import opened JsonValue
  import opened JsonCodec
  import opened ClientConfig
  import opened Context
  import opened ContextQuery
  import opened HttpHeaders

  const OK_LOWER := 200
  const OK_UPPER := 300
  const NO_UPDATE := 304
  const IF_NONE_MATCH := "if-none-match"
  const SDK_VERSION := "unleash-cpp-sdk:1.0.0-dev"
  const AGENT_VERSION := "unleash-cpp-sdk/1.0.0-dev"

  datatype HttpRequest = HttpRequest(url: string, usePost: bool, headers: map<string, string>, body: Option<Json>)

  /** Whatever the transport may hand back. */
  datatype Reply =
    | NoReply
    | ErrorReply
    | UnknownReply
    | HttpReply(status: int, headers: map<string, string>, body: Option<Json>)

  datatype FetchError =
    | NullResponse
    | ErrorResponse
    | NotHttp
    | TransportFailure
    | Undecodable(reason: DecodeError)
    | BadStatus(status: int)

  datatype FetchResult = FetchResult(status: int, toggles: Option<ToggleSet>, error: Option<FetchError>)

  // ---- request headers ----

  function DefaultHeaders(cfg: Config, etag: string): map<string, string> {
    var h: map<string, string> := map["accept" := "application/json", "'unleash-connection-id'" := cfg.connectionId];
    var h := h[LowerCase(cfg.headerName) := cfg.clientKey];
    var h := h["unleash-sdk" := SDK_VERSION]["user-agent" := AGENT_VERSION]["unleash-appname" := cfg.appName];
    var h := if cfg.usePostRequests then h["content-type" := "application/json"] else h;
    if etag == "" then h else h[IF_NONE_MATCH := etag]
  }

  function WithCustom(headers: map<string, string>, custom: seq<(string, string)>): map<string, string> {
    if custom == [] then headers
    else
      var front := WithCustom(headers, custom[..|custom| - 1]);
      var (k, v) := custom[|custom| - 1];
      if k == "" then front else front[LowerCase(k) := v]
  }

  ghost predicate NoConditionalHeader(cfg: Config) {
    && LowerCase(cfg.headerName) != IF_NONE_MATCH
    && forall i :: 0 <= i < |cfg.customHeaders| ==>
         cfg.customHeaders[i].0 == "" || LowerCase(cfg.customHeaders[i].0) != IF_NONE_MATCH
  }

  /** The request announces the stored tag, and only that. */
  ghost predicate InSync(etag: string, headers: map<string, string>) {
    if etag == "" then IF_NONE_MATCH !in headers
    else IF_NONE_MATCH in headers && headers[IF_NONE_MATCH] == etag
  }

  lemma {:induction false} CustomHeaderKeys(headers: map<string, string>, custom: seq<(string, string)>, key: string)
    ensures key in WithCustom(headers, custom) <==>
            key in headers || exists i :: 0 <= i < |custom| && custom[i].0 != "" && LowerCase(custom[i].0) == key
  {
    if custom != [] {
      var front := custom[..|custom| - 1];
      CustomHeaderKeys(headers, front, key);
      if i :| 0 <= i < |custom| && custom[i].0 != "" && LowerCase(custom[i].0) == key {
        assert i == |front| || front[i] == custom[i];
      }
    }
  }

  /** A new fetcher announces no tag exactly when no configured header is named if-none-match, in any case. */
  lemma FirstRequestIsUnconditionalIff(cfg: Config)
    ensures InSync("", WithCustom(DefaultHeaders(cfg, ""), cfg.customHeaders)) <==> NoConditionalHeader(cfg)
  {
    CustomHeaderKeys(DefaultHeaders(cfg, ""), cfg.customHeaders, IF_NONE_MATCH);
    assert |IF_NONE_MATCH| == 13;
    assert IF_NONE_MATCH in DefaultHeaders(cfg, "") <==> LowerCase(cfg.headerName) == IF_NONE_MATCH;
  }

  /** Entry i is applied and no later entry has its lower-case name. */
  ghost predicate AppliedLast(custom: seq<(string, string)>, i: nat, key: string) {
    && i < |custom| && custom[i].0 != "" && LowerCase(custom[i].0) == key
    && forall j :: i < j < |custom| ==> custom[j].0 == "" || LowerCase(custom[j].0) != key
  }

  ghost predicate Overridden(custom: seq<(string, string)>, key: string) {
    exists i :: 0 <= i < |custom| && custom[i].0 != "" && LowerCase(custom[i].0) == key
  }

  /** A custom header that no later one overwrites holds its value. */
  lemma {:induction false} CustomHeaderHolds(
    headers: map<string, string>, custom: seq<(string, string)>, i: nat, key: string)
    requires AppliedLast(custom, i, key)
    ensures key in WithCustom(headers, custom) && WithCustom(headers, custom)[key] == custom[i].1
  {
    var n := |custom| - 1;
    if i < n {
      CustomHeaderHolds(headers, custom[..n], i, key);
    }
  }

  /** Every header that no custom one overwrites stays as it was. */
  lemma {:induction false} OtherHeadersStay(headers: map<string, string>, custom: seq<(string, string)>, key: string)
    requires !Overridden(custom, key)
    ensures key in WithCustom(headers, custom) <==> key in headers
    ensures key in headers ==> WithCustom(headers, custom)[key] == headers[key]
  {
    if custom != [] {
      var n := |custom| - 1;
      var front := custom[..n];
      assert forall i :: 0 <= i < n ==> front[i] == custom[i];
      OtherHeadersStay(headers, front, key);
    }
  }

  /** The names that the fetcher sets after the auth header. */
  predicate SetAfterAuth(cfg: Config, key: string) {
    key == "unleash-sdk" || key == "user-agent" || key == "unleash-appname"
    || (cfg.usePostRequests && key == "content-type")
  }

  /**
   * What a new fetcher's headers hold, custom ones aside: the client key under the configured name, unless that is
   * one of the names set later; the SDK's own values; and nothing else.
   */
  lemma DefaultHeadersAre(cfg: Config)
    ensures var h := DefaultHeaders(cfg, ""); var auth := LowerCase(cfg.headerName);
            && auth in h && (!SetAfterAuth(cfg, auth) ==> h[auth] == cfg.clientKey)
            && "unleash-sdk" in h && h["unleash-sdk"] == "unleash-cpp-sdk:1.0.0-dev"
            && "user-agent" in h && h["user-agent"] == "unleash-cpp-sdk/1.0.0-dev"
            && "unleash-appname" in h && h["unleash-appname"] == cfg.appName
            && (cfg.usePostRequests ==> "content-type" in h && h["content-type"] == "application/json")
            && "accept" in h && (auth != "accept" ==> h["accept"] == "application/json")
            && "'unleash-connection-id'" in h
            && (auth != "'unleash-connection-id'" ==> h["'unleash-connection-id'"] == cfg.connectionId)
            && forall k :: k in h ==>
                 k == auth || k == "accept" || k == "'unleash-connection-id'" || SetAfterAuth(cfg, k)
  {
  }

  /** So every request authenticates, unless a custom header takes the place of the key. */
  lemma RequestsCarryTheKey(cfg: Config)
    requires var auth := LowerCase(cfg.headerName); !SetAfterAuth(cfg, auth) && !Overridden(cfg.customHeaders, auth)
    ensures var h, auth := WithCustom(DefaultHeaders(cfg, ""), cfg.customHeaders), LowerCase(cfg.headerName);
            auth in h && h[auth] == cfg.clientKey
  {
    DefaultHeadersAre(cfg);
    OtherHeadersStay(DefaultHeaders(cfg, ""), cfg.customHeaders, LowerCase(cfg.headerName));
  }

  // ---- classification of a reply ----

  predicate OkStatus(status: int) {
    OK_LOWER <= status < OK_UPPER
  }

  function Failed(status: int, e: FetchError): FetchResult {
    FetchResult(status, None, Some(e))
  }

  function Classify(reply: Reply): FetchResult {
    match reply
    case NoReply => Failed(-1, NullResponse)
    case ErrorReply => Failed(-1, ErrorResponse)
    case UnknownReply => Failed(-1, NotHttp)
    case HttpReply(status, _, body) =>
      if status == 0 then Failed(0, TransportFailure)
      else if status == NO_UPDATE then FetchResult(status, None, None)
      else if OkStatus(status) then
        match DecodeFeatures(body)
        case Failure(e) => Failed(status, Undecodable(e))
        case Success(s) => FetchResult(status, if |s| > 0 then Some(s) else None, None)
      else Failed(status, BadStatus(status))
  }

  predicate Decoded(reply: Reply) {
    reply.HttpReply? && OkStatus(reply.status) && DecodeFeatures(reply.body).Success?
  }

  predicate NotModified(reply: Reply) {
    reply.HttpReply? && reply.status == NO_UPDATE
  }

  predicate CarriesTag(reply: Reply) {
    reply.HttpReply? && "etag" in reply.headers && reply.headers["etag"] != ""
  }

  function TagAfter(etag: string, reply: Reply): string {
    if Decoded(reply) && CarriesTag(reply) then reply.headers["etag"] else etag
  }

  function HeadersAfter(headers: map<string, string>, reply: Reply): map<string, string> {
    if Decoded(reply) && CarriesTag(reply) then headers[IF_NONE_MATCH := reply.headers["etag"]] else headers
  }

  /**
   * A result without an error is a 304 or a decoded 2xx, so a caller that has dealt with errors,
   * 304 and 2xx never meets an absent error; toggles come only from a decoded non-empty set.
   */
  lemma ResultsWithoutError(reply: Reply)
    ensures Classify(reply).error.None? <==> NotModified(reply) || Decoded(reply)
    ensures Classify(reply).error.None? ==> Classify(reply).status == NO_UPDATE || OkStatus(Classify(reply).status)
    ensures Classify(reply).toggles.Some? <==> Decoded(reply) && |DecodeFeatures(reply.body).value| > 0
    ensures Classify(reply).toggles.Some? ==>
              && Classify(reply).toggles.value == DecodeFeatures(reply.body).value
              && |Classify(reply).toggles.value| > 0 && NormalSet(Classify(reply).toggles.value)
  {
    if Decoded(reply) {
      DecodedSetsAreNormal(reply.body);
    }
  }

  /** The outcome by status: 304 and decoded 2xx succeed, all else fails for the reason given. */
  lemma OutcomeIs(reply: Reply)
    ensures var r := Classify(reply);
            match reply
            case NoReply => r.error == Some(NullResponse) && r.toggles.None?
            case ErrorReply => r.error == Some(ErrorResponse) && r.toggles.None?
            case UnknownReply => r.error == Some(NotHttp) && r.toggles.None?
            case HttpReply(status, _, body) =>
              && r.status == status
              && (status == 0 ==> r.error == Some(TransportFailure) && r.toggles.None?)
              && (status == 304 ==> r.error.None? && r.toggles.None?)
              && (200 <= status < 300 ==>
                    match DecodeFeatures(body)
                    case Success(s) => r.error.None? && r.toggles == (if s == map[] then None else Some(s))
                    case Failure(e) => r.error == Some(Undecodable(e)) && r.toggles.None?)
              && (status != 0 && status != 304 && !(200 <= status < 300) ==>
                    r.error == Some(BadStatus(status)) && r.toggles.None?)
  {
  }

  /** The stored tag is that of a decoded 2xx that has a non-empty one, and the next request announces it. */
  lemma TagIs(etag: string, headers: map<string, string>, reply: Reply)
    ensures var t, h := TagAfter(etag, reply), HeadersAfter(headers, reply);
            if reply.HttpReply? && 200 <= reply.status < 300 && DecodeFeatures(reply.body).Success?
               && "etag" in reply.headers && reply.headers["etag"] != ""
            then t == reply.headers["etag"] && h == headers["if-none-match" := reply.headers["etag"]]
            else t == etag && h == headers
  {
  }

  lemma SyncIsKept(etag: string, headers: map<string, string>, reply: Reply)
    ensures InSync(etag, headers) ==> InSync(TagAfter(etag, reply), HeadersAfter(headers, reply))
    ensures Decoded(reply) && CarriesTag(reply) ==> InSync(TagAfter(etag, reply), HeadersAfter(headers, reply))
  {
  }

  // ---- the fetcher ----

  /** A request carries the context in its body or in its query, not in both. */
  predicate CarriesContext(request: HttpRequest, baseUrl: string, c: ContextFields) {
    if request.usePost then request.body == Some(ContextBody(c))
    else request.body == None && request.url == baseUrl + Print(NonEmptyFields(c))
  }

  class Fetcher {
    var baseUrl: string
    var etag: string
    var url: string
    var usePost: bool
    var headers: map<string, string>
    var body: Option<Json>

    constructor (cfg: Config)
      ensures etag == "" && baseUrl == cfg.url && url == cfg.url && usePost == cfg.usePostRequests
      ensures headers == WithCustom(DefaultHeaders(cfg, ""), cfg.customHeaders)
    {
      baseUrl, etag, url := cfg.url, "", cfg.url;
      usePost, body := cfg.usePostRequests, None;
      var h: map<string, string> := map[];
      h := h["accept" := "application/json"];
      h := h["'unleash-connection-id'" := cfg.connectionId];
      h := h[LowerCase(cfg.headerName) := cfg.clientKey];
      h := h["unleash-sdk" := SDK_VERSION];
      h := h["user-agent" := AGENT_VERSION];
      h := h["unleash-appname" := cfg.appName];
      if cfg.usePostRequests {
        h := h["content-type" := "application/json"];
      }
      assert h == DefaultHeaders(cfg, "");
      var custom := cfg.customHeaders;
      for i := 0 to |custom|
        invariant h == WithCustom(DefaultHeaders(cfg, ""), custom[..i])
      {
        assert custom[..i + 1][..i] == custom[..i];
        var (k, v) := custom[i];
        if k == "" {
          continue;
        }
        h := h[LowerCase(k) := v];
      }
      assert custom[..|custom|] == custom;
      headers := h;
    }

    function Request(): HttpRequest
      reads this
    {
      HttpRequest(url, usePost, headers, body)
    }

    method Prepare(c: ContextFields)
      modifies this
      ensures usePost ==> body == Some(ContextBody(c)) && url == old(url)
      ensures !usePost ==> body == None && url == baseUrl + Print(NonEmptyFields(c))
      ensures baseUrl == old(baseUrl) && usePost == old(usePost) && etag == old(etag) && headers == old(headers)
    {
      if usePost {
        var encoded := EncodeContextRequestBody(c);
        body := Some(encoded);
      } else {
        body := None;
        url := baseUrl;
        var query := BuildContextQuery(c);
        url := url + query;
      }
    }

    method Receive(reply: Reply) returns (r: FetchResult)
      modifies this
      ensures r == Classify(reply)
      ensures etag == TagAfter(old(etag), reply) && headers == HeadersAfter(old(headers), reply)
      ensures baseUrl == old(baseUrl) && usePost == old(usePost) && url == old(url) && body == old(body)
    {
      r := FetchResult(-1, None, None);
      if reply.NoReply? {
        r := r.(error := Some(NullResponse));
        return;
      }
      if reply.ErrorReply? {
        r := r.(error := Some(ErrorResponse));
        return;
      }
      if !reply.HttpReply? {
        r := r.(error := Some(NotHttp));
        return;
      }
      if reply.status == 0 {
        r := r.(status := reply.status, error := Some(TransportFailure));
        return;
      }
      r := r.(status := reply.status);
      if reply.status == NO_UPDATE {
        return;
      }
      if OK_LOWER <= reply.status < OK_UPPER {
        var decoded := DecodeClientFeaturesResponse(reply.body);
        if decoded.Failure? {
          r := r.(error := Some(Undecodable(decoded.error)));
          return;
        }
        if |decoded.value| > 0 {
          r := r.(toggles := Some(decoded.value));
        }
        if "etag" in reply.headers && reply.headers["etag"] != "" {
          etag := reply.headers["etag"];
          headers := headers[IF_NONE_MATCH := etag];
        }
        return;
      }
      r := r.(error := Some(BadStatus(reply.status)));
    }

    /** server stands for the network: what it answers depends only on the request it is sent. */
    method Fetch(c: ContextFields, server: HttpRequest -> Reply) returns (r: FetchResult, sent: HttpRequest)
      modifies this
      ensures sent.headers == old(headers) && sent.usePost == old(usePost)
      ensures CarriesContext(sent, old(baseUrl), c) && (sent.usePost ==> sent.url == old(url))
      ensures sent.usePost ==> sent.body == Some(ContextBody(c))
      ensures !sent.usePost ==> sent.body == None && sent.url == old(baseUrl) + Print(NonEmptyFields(c))
      ensures r == Classify(server(sent))
      ensures etag == TagAfter(old(etag), server(sent)) && headers == HeadersAfter(old(headers), server(sent))
      ensures baseUrl == old(baseUrl) && usePost == old(usePost) && url == sent.url
    {
      Prepare(c);
      sent := Request();
      r := Receive(server(sent));
    }
  }
}
