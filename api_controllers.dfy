/**
 * `Api::BaseController` and `Api::V1::BaseController`: version selection and checking,
 * bearer-token authentication, and the JSON envelopes every API response uses.
 */
module ApiControllers {
  import opened Wrappers
  import opened Text
  import opened Json

  /** What the helpers read from the request: its headers and its parameters. */
  datatype Request = Request(headers: map<string, string>, params: map<string, string>)

  datatype User = User(id: int)

  function Lookup(m: map<string, string>, key: string): (v: Option<string>)
    ensures v.Some? <==> key in m
    ensures v.Some? ==> v.value == m[key]
  {
    if key in m then Some(m[key]) else None
  }

  const SupportedVersions := ["v1"]
  const DefaultVersion := "v1"

  /** `Api::BaseController#valid_api_version?`: the version is one of the supported ones, which is only "v1". */
  predicate ValidApiVersion(version: string): (valid: bool)
    ensures valid <==> version == "v1"
  {
    version in SupportedVersions
  }

  /** `Api::V1::BaseController#valid_api_version?`: `version == 'v1'`. */
  predicate ValidApiVersionV1(version: string) {
    version == "v1"
  }

  /** The V1 override accepts exactly what the base definition accepts. */
  lemma ValidApiVersionsAgree(version: string)
    ensures ValidApiVersion(version) <==> ValidApiVersionV1(version)
  {
  }

  /**
   * `request.headers['Accept-Version'] || params[:version] || 'v1'`: the header wins, then the
   * parameter, then the default. An empty header is a string, so it is taken as it is.
   */
  function RequestedVersion(req: Request): (version: string)
    ensures "Accept-Version" in req.headers ==> version == req.headers["Accept-Version"]
    ensures "Accept-Version" !in req.headers && "version" in req.params ==> version == req.params["version"]
    ensures "Accept-Version" !in req.headers && "version" !in req.params ==> version == DefaultVersion
  {
    match Lookup(req.headers, "Accept-Version")
    case Some(v) => v
    case None =>
      match Lookup(req.params, "version")
      case Some(v) => v
      case None => DefaultVersion
  }

  /** The text after a leading run of `split(' ')` whitespace. */
  function SkipSpace(s: string): (r: string)
    ensures |r| <= |s| && s == s[..|s| - |r|] + r
    ensures forall i :: 0 <= i < |s| - |r| ==> IsAsciiSpace(s[i])
    ensures r == [] || !IsAsciiSpace(r[0])
  {
    if s != [] && IsAsciiSpace(s[0]) then SkipSpace(s[1..]) else s
  }

  const BearerPrefix := "Bearer "

  /**
   * `extract_token_from_header`: nil unless the header starts with "Bearer "; otherwise
   * `header.split(' ', 2).last`, the rest of the header after the whitespace that follows "Bearer".
   */
  function ExtractToken(header: Option<string>): (token: Option<string>)
    ensures token.Some? <==> header.Some? && StartsWithBearer(header.value)
    ensures token.Some? ==>
      var h, gap := header.value, |header.value| - |token.value|;
      && 7 <= gap <= |h| && h[gap..] == token.value
      && (forall i :: 6 <= i < gap ==> IsAsciiSpace(h[i]))
      && (token.value == [] || !IsAsciiSpace(token.value[0]))
  {
    if header.Some? && StartsWithBearer(header.value) then
      var h := header.value;
      var t := SkipSpace(h[6..]);
      assert h[6] == ' ';
      Some(t)
    else None
  }

  predicate StartsWithBearer(h: string) {
    |h| >= 7 && h[..7] == BearerPrefix
  }

  /** A token written after "Bearer" and a whitespace run that starts with a space is extracted unchanged. */
  lemma BearerTokenRoundTrip(ws: string, token: string)
    requires ws != [] && ws[0] == ' ' && forall i :: 0 <= i < |ws| ==> IsAsciiSpace(ws[i])
    requires token == [] || !IsAsciiSpace(token[0])
    ensures ExtractToken(Some("Bearer" + ws + token)) == Some(token)
  {
    var h := "Bearer" + ws + token;
    assert h[..7] == BearerPrefix by {
      assert h[..7] == "Bearer" + [ws[0]];
    }
    assert h[6..] == ws + token;
    SkipSpaceOfSpaces(ws, token);
  }

  lemma {:induction false} SkipSpaceOfSpaces(ws: string, rest: string)
    requires forall i :: 0 <= i < |ws| ==> IsAsciiSpace(ws[i])
    requires rest == [] || !IsAsciiSpace(rest[0])
    ensures SkipSpace(ws + rest) == rest
  {
    if ws != [] {
      assert (ws + rest)[1..] == ws[1..] + rest;
      SkipSpaceOfSpaces(ws[1..], rest);
    }
  }

  /** "Bearer test_token_123" gives "test_token_123". */
  lemma ExtractTokenExample()
    ensures ExtractToken(Some("Bearer test_token_123")) == Some("test_token_123")
  {
    assert "Bearer" + " " + "test_token_123" == "Bearer test_token_123";
    BearerTokenRoundTrip(" ", "test_token_123");
  }

  /** Another scheme, or no header at all, gives nil. */
  lemma ExtractTokenRejects()
    ensures ExtractToken(Some("InvalidFormat token")) == None
    ensures ExtractToken(None) == None
  {
    assert !StartsWithBearer("InvalidFormat token") by {
      assert "InvalidFormat token"[..7][0] == 'I';
    }
  }

  const AcceptedToken := "valid_token"

  /** `authenticate_with_token`: only the literal "valid_token" authenticates, as `User.first` (nil if there is no user). */
  function AuthenticateWithToken(token: string, firstUser: Option<User>): (user: Option<User>)
    ensures user.Some? <==> token == AcceptedToken && firstUser.Some?
    ensures user.Some? ==> user == firstUser
  {
    if token != AcceptedToken then None else firstUser
  }

  /**
   * The user an Authorization header authenticates, if any: there is one exactly when the
   * header's bearer token is "valid_token" and a first user exists, and it is that user.
   */
  function Authenticate(header: Option<string>, firstUser: Option<User>): (user: Option<User>)
    ensures user.Some? <==> ExtractToken(header) == Some(AcceptedToken) && firstUser.Some?
    ensures user.Some? ==> user == firstUser
  {
    match ExtractToken(header)
    case None => None
    case Some(token) => AuthenticateWithToken(token, firstUser)
  }

  /** "Bearer valid_token" authenticates as the first user. */
  lemma AuthenticateAccepts(firstUser: Option<User>)
    ensures Authenticate(Some("Bearer valid_token"), firstUser) == firstUser
  {
    assert "Bearer" + " " + "valid_token" == "Bearer valid_token";
    BearerTokenRoundTrip(" ", "valid_token");
  }

  /** "Bearer invalid_token" and a missing header do not authenticate. */
  lemma AuthenticateRejects(firstUser: Option<User>)
    ensures Authenticate(Some("Bearer invalid_token"), firstUser) == None
    ensures Authenticate(None, firstUser) == None
  {
    assert "Bearer" + " " + "invalid_token" == "Bearer invalid_token";
    BearerTokenRoundTrip(" ", "invalid_token");
    assert AcceptedToken != "invalid_token" by {
      assert |AcceptedToken| != |"invalid_token"|;
    }
  }

  /** `{timestamp:, version:}.merge(meta)`: caller-supplied keys override the defaults. */
  function Meta(timestamp: string, version: string, meta: map<string, Json>): (m: map<string, Json>)
    ensures m.Keys == {"timestamp", "version"} + meta.Keys
    ensures forall k :: k in meta ==> m[k] == meta[k]
    ensures "timestamp" !in meta ==> m["timestamp"] == Str(timestamp)
    ensures "version" !in meta ==> m["version"] == Str(version)
  {
    map["timestamp" := Str(timestamp), "version" := Str(version)] + meta
  }

  /**
   * The body `render_success` renders: exactly the keys success, message, data and meta, with
   * `success: true`, the data as given, and the merged meta.
   */
  function SuccessEnvelope(data: Json, message: string, timestamp: string, version: string, meta: map<string, Json>): (body: Json)
    ensures body.Obj? && body.fields.Keys == {"success", "message", "data", "meta"}
    ensures body.fields["success"] == Bool(true) && body.fields["message"] == Str(message)
    ensures body.fields["data"] == data && body.fields["meta"] == Obj(Meta(timestamp, version, meta))
  {
    Obj(map["success" := Bool(true), "message" := Str(message), "data" := data,
            "meta" := Obj(Meta(timestamp, version, meta))])
  }

  /**
   * The body `render_error` renders: exactly the keys success, message, errors and meta, with
   * `success: false`, the errors as given, and the merged meta.
   */
  function ErrorEnvelope(message: string, errors: Json, timestamp: string, version: string, meta: map<string, Json>): (body: Json)
    ensures body.Obj? && body.fields.Keys == {"success", "message", "errors", "meta"}
    ensures body.fields["success"] == Bool(false) && body.fields["message"] == Str(message)
    ensures body.fields["errors"] == errors && body.fields["meta"] == Obj(Meta(timestamp, version, meta))
  {
    Obj(map["success" := Bool(false), "message" := Str(message), "errors" := errors,
            "meta" := Obj(Meta(timestamp, version, meta))])
  }

  /** No body is both a success and an error envelope: their `success` flags differ. */
  lemma EnvelopesDiffer(data: Json, errors: Json, m1: string, m2: string, timestamp: string, version: string,
                        meta1: map<string, Json>, meta2: map<string, Json>)
    ensures SuccessEnvelope(data, m1, timestamp, version, meta1) != ErrorEnvelope(m2, errors, timestamp, version, meta2)
  {
  }

  const ConfiguredV1Features := Some(["authentication", "pagination", "filtering", "sorting"])

  /**
   * `v1_feature_enabled?`: `config.api_v1_features&.include?(feature.to_s)`; with no list
   * configured the safe navigation gives nil (None).
   */
  function V1FeatureEnabled(features: Option<seq<string>>, feature: string): (enabled: Option<bool>)
    ensures enabled.None? <==> features.None?
    ensures enabled == Some(true) <==> features.Some? && feature in features.value
  {
    match features
    case None => None
    case Some(list) => Some(feature in list)
  }

  lemma ConfiguredV1FeaturesExamples()
    ensures V1FeatureEnabled(ConfiguredV1Features, "pagination") == Some(true)
    ensures V1FeatureEnabled(ConfiguredV1Features, "caching") == Some(false)
  {
  }

  /**
   * One API controller instance serving one request. `v1` tells an `Api::V1::BaseController`
   * (with its `set_api_version_v1` callback and its `valid_api_version?`) from a plain
   * `Api::BaseController`.
   */
  class Controller {
    const request: Request
    const now: string                // `Time.current.iso8601` during this request
    const firstUser: Option<User>    // `User.first`
    const v1: bool
    var format: Option<string>       // `request.format`
    var apiVersion: Option<string>   // `@api_version`
    var currentUser: Option<User>    // `@current_user`, read by `current_api_user`
    var rendered: seq<Response>      // what `render` has produced so far

    constructor(request: Request, now: string, firstUser: Option<User>, v1: bool, format: Option<string>)
      ensures this.request == request && this.now == now && this.firstUser == firstUser && this.v1 == v1
      ensures this.format == format && apiVersion == None && currentUser == None && rendered == []
    {
      this.request := request;
      this.now := now;
      this.firstUser := firstUser;
      this.v1 := v1;
      this.format := format;
      apiVersion := None;
      currentUser := None;
      rendered := [];
    }

    /** `performed?`: a response has been rendered. */
    predicate Performed()
      reads this
    {
      rendered != []
    }

    /** `valid_api_version?` as dispatched for this controller's class. */
    predicate ValidVersion(version: string) {
      if v1 then ValidApiVersionV1(version) else ValidApiVersion(version)
    }

    /** `api_version`: `@api_version ||= ...`, computed once and then fixed for the request. */
    method ApiVersion() returns (version: string)
      modifies this`apiVersion
      ensures old(apiVersion).Some? ==> version == old(apiVersion).value
      ensures old(apiVersion).None? ==> version == RequestedVersion(request)
      ensures apiVersion == Some(version)
    {
      if apiVersion.None? {
        apiVersion := Some(RequestedVersion(request));
      }
      version := apiVersion.value;
    }

    /** `set_default_format`: JSON unless a `format` parameter was given. */
    method SetDefaultFormat()
      modifies this`format
      ensures "format" in request.params ==> format == old(format)
      ensures "format" !in request.params ==> format == Some("json")
    {
      if "format" !in request.params {
        format := Some("json");
      }
    }

    /** `render_success`: the success envelope, stamped with the time and the memoised version. */
    method RenderSuccess(data: Json := Null, message: string := "Success", status: int := StatusOk,
                         meta: map<string, Json> := map[])
      modifies this`apiVersion, this`rendered
      ensures apiVersion == Some(if old(apiVersion).Some? then old(apiVersion).value else RequestedVersion(request))
      ensures rendered == old(rendered) + [Response(status, SuccessEnvelope(data, message, now, apiVersion.value, meta))]
    {
      var version := ApiVersion();
      rendered := rendered + [Response(status, SuccessEnvelope(data, message, now, version, meta))];
    }

    /** `render_error`: the error envelope, stamped with the time and the memoised version. */
    method RenderError(message: string := "Error", status: int := StatusUnprocessableEntity, errors: Json := Null,
                       meta: map<string, Json> := map[])
      modifies this`apiVersion, this`rendered
      ensures apiVersion == Some(if old(apiVersion).Some? then old(apiVersion).value else RequestedVersion(request))
      ensures rendered == old(rendered) + [Response(status, ErrorEnvelope(message, errors, now, apiVersion.value, meta))]
    {
      var version := ApiVersion();
      rendered := rendered + [Response(status, ErrorEnvelope(message, errors, now, version, meta))];
    }

    /** `check_api_version`: 406 "Unsupported API version" exactly when the requested version is not valid. */
    method CheckApiVersion()
      modifies this`apiVersion, this`rendered
      ensures ValidVersion(RequestedVersion(request)) ==> rendered == old(rendered) && apiVersion == old(apiVersion)
      ensures !ValidVersion(RequestedVersion(request)) ==>
        && apiVersion == Some(if old(apiVersion).Some? then old(apiVersion).value else RequestedVersion(request))
        && rendered == old(rendered) + [Response(StatusNotAcceptable,
             ErrorEnvelope("Unsupported API version", Null, now, apiVersion.value, map[]))]
    {
      var version := RequestedVersion(request);
      if !ValidVersion(version) {
        RenderError("Unsupported API version", StatusNotAcceptable);
      }
    }

    /**
     * `authenticate_api_user!`: with a token, `@current_user` becomes what the token
     * authenticates (possibly nil); without a user, 401 "Authentication required".
     */
    method AuthenticateApiUser()
      modifies this`apiVersion, this`rendered, this`currentUser
      ensures var token := ExtractToken(Lookup(request.headers, "Authorization"));
        && (token.Some? ==> currentUser == AuthenticateWithToken(token.value, firstUser))
        && (token.None? ==> currentUser == old(currentUser))
      ensures var user := Authenticate(Lookup(request.headers, "Authorization"), firstUser);
        && (user.Some? ==> currentUser == user && rendered == old(rendered) && apiVersion == old(apiVersion))
        && (user.None? ==>
              && apiVersion == Some(if old(apiVersion).Some? then old(apiVersion).value else RequestedVersion(request))
              && rendered == old(rendered) + [Response(StatusUnauthorized,
                   ErrorEnvelope("Authentication required", Null, now, apiVersion.value, map[]))])
    {
      var token := ExtractToken(Lookup(request.headers, "Authorization"));
      if token.Some? {
        currentUser := AuthenticateWithToken(token.value, firstUser);
      }
      if token.None? || currentUser.None? {
        RenderError("Authentication required", StatusUnauthorized);
      }
    }

    /** `handle_missing_parameter`: 400 naming the parameter. */
    method HandleMissingParameter(param: string)
      modifies this`apiVersion, this`rendered
      ensures apiVersion == Some(if old(apiVersion).Some? then old(apiVersion).value else RequestedVersion(request))
      ensures rendered == old(rendered) + [Response(StatusBadRequest,
        ErrorEnvelope("Missing required parameter: " + param, Null, now, apiVersion.value, map[]))]
    {
      RenderError("Missing required parameter: " + param, StatusBadRequest);
    }

    /** `handle_validation_error`: 422 with the record's full error messages. */
    method HandleValidationError(fullMessages: seq<string>)
      modifies this`apiVersion, this`rendered
      ensures apiVersion == Some(if old(apiVersion).Some? then old(apiVersion).value else RequestedVersion(request))
      ensures rendered == old(rendered) + [Response(StatusUnprocessableEntity,
        ErrorEnvelope("Validation failed", Arr(seq(|fullMessages|, i requires 0 <= i < |fullMessages| => Str(fullMessages[i]))),
                      now, apiVersion.value, map[]))]
    {
      var errors := seq(|fullMessages|, i requires 0 <= i < |fullMessages| => Str(fullMessages[i]));
      RenderError("Validation failed", StatusUnprocessableEntity, Arr(errors));
    }

    /** `handle_not_found_api`: 404 "Resource not found". */
    method HandleNotFoundApi()
      modifies this`apiVersion, this`rendered
      ensures apiVersion == Some(if old(apiVersion).Some? then old(apiVersion).value else RequestedVersion(request))
      ensures rendered == old(rendered) + [Response(StatusNotFound,
        ErrorEnvelope("Resource not found", Null, now, apiVersion.value, map[]))]
    {
      RenderError("Resource not found", StatusNotFound);
    }

    /** `handle_unauthorized`: 403 "Access denied". */
    method HandleUnauthorized()
      modifies this`apiVersion, this`rendered
      ensures apiVersion == Some(if old(apiVersion).Some? then old(apiVersion).value else RequestedVersion(request))
      ensures rendered == old(rendered) + [Response(StatusForbidden,
        ErrorEnvelope("Access denied", Null, now, apiVersion.value, map[]))]
    {
      RenderError("Access denied", StatusForbidden);
    }

    /** `set_api_version_v1`: fixes the memoised version to "v1". */
    method SetApiVersionV1()
      modifies this`apiVersion
      ensures apiVersion == Some("v1")
    {
      apiVersion := Some("v1");
    }

    /**
     * The `before_action` chain in registration order: `set_default_format`,
     * `check_api_version`, then, for V1 controllers, `set_api_version_v1`; the chain stops
     * as soon as a callback has rendered. An unsupported version is therefore rejected
     * with 406 before the V1 override could run, and that 406 reports the requested version.
     */
    method RunBeforeActions() returns (proceed: bool)
      requires !Performed() && apiVersion.None?
      modifies this`format, this`apiVersion, this`rendered
      ensures proceed <==> ValidVersion(RequestedVersion(request))
      ensures format == (if "format" in request.params then old(format) else Some("json"))
      ensures proceed ==> rendered == [] && apiVersion == (if v1 then Some("v1") else None)
      ensures !proceed ==> rendered == [Response(StatusNotAcceptable,
        ErrorEnvelope("Unsupported API version", Null, now, RequestedVersion(request), map[]))]
      ensures !proceed ==> apiVersion == Some(RequestedVersion(request))
    {
      SetDefaultFormat();
      if !Performed() {
        CheckApiVersion();
      }
      if !Performed() && v1 {
        SetApiVersionV1();
      }
      proceed := !Performed();
    }
  }
}
