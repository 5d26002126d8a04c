# Name judgment and API controllers of rails-docker, modelled in Dafny

The application judges a Japanese name by its stroke count. The `NameJudgment` concern works in
three steps:

1. It decodes the name as UTF-8 into code points.
2. It renders each code point as an upper-case hexadecimal key, with no prefix.
3. It adds up the `count` column of every `string_counts` row whose `unicode` column is one of
   those keys.

The total is the id of a `result_string_counts` row. That row points at a rank, a comment and a
detail text. `Api::V1::NameJudgmentController#index` wraps this in three answers:

- 400 for a blank name.
- 200 with the judgment.
- 500 for any exception raised inside its `begin ... rescue` block.

`present?` runs before that block. For a non-empty name that is not valid UTF-8, the blankness
regexp raises `ArgumentError` ("invalid byte sequence in UTF-8"). That exception leaves the
action unrescued, so the model's `index` returns it as an error instead of a response.

The model also covers the other API helpers:

- The `before_action` chain of `Api::BaseController` and `Api::V1::BaseController`, which selects
  and checks the version and sets the JSON format.
- Bearer-token extraction and authentication.
- The success and error envelopes and the error handlers.
- `v1_feature_enabled?`.
- How `HealthController` folds individual checks into the `show`, `detailed`, `ready` and `live`
  answers.

Modules, one per file:

- `Wrappers`: `Option` and `Result`.
- `Json`: JSON values, responses and HTTP status codes.
- `Text`: ASCII upcase, prefix deletion and decimal rendering.
- `Utf8`: a strict RFC 3629 decoder and encoder, with both round trips proved.
- `HexFormat`: `sprintf("%#x")`, the deletion of its first two characters and `upcase!`. It proves
  that the key of a nonzero code point is its canonical upper-case hex and parses back to it.
- `StringCounts`: the `where(unicode: ...)` membership filter and the `by_unicode` scope.
- `NameJudgment`:
  - `change_unicode_point` as a loop that fills an array;
  - `all_count_get`, decomposed into one total per distinct key;
  - `name_count_result`, with the exceptions it raises.
- `NameJudgmentController`: `index`.
- `ApiControllers`: the controller class, its memoised `@api_version` and the responses it has
  rendered.
- `HealthController`: the four health endpoints.

Things that are inputs to the model:

- Database tables are values of the `Tables` datatype.
- The current time is a string parameter (`now`, `timestamp`).
- `User.first` is a parameter.
- The results of the individual health checks are parameters.

The code and its spec files disagree in two places. The model follows the code each time:

- `name_judgment_spec.rb` expects the error message "Invalid string encoding" for `"\xC0"`. The
  code raises Ruby's own `ArgumentError` from `unpack("U*")`, and no message of the code
  mentions the string encoding. Through `index` that exception never happens, because
  `present?` raises first (`DecoderErrorNeverRescued`).
- The spec expects `name_count_result` to return `{error: "Result not found"}` for an unknown
  total. The code calls `ResultStringCount.find`, which raises `RecordNotFound`. As a result,
  `index` answers 500 where the spec expects 404, and its 404 branch can never be reached
  (`IndexNever404`).

A detail of the code that no spec file checks: a request with an unsupported version gets a 406
from `check_api_version`, and that response's `meta.version` is the unsupported version itself.
This happens because `render_error` memoises `@api_version` before `set_api_version_v1` could
run (`RunBeforeActions`).

## Model

| member | source | states |
|---|---|---|
| Utf8.Decode | app/controllers/concerns/name_judgment.rb:5 | `unpack("U*")` on a UTF-8 string: every decoded value is a Unicode scalar value, and there are no more of them than bytes |
| Utf8.DecodeEncode | app/controllers/concerns/name_judgment.rb:5 | decoding the UTF-8 encoding of any scalar sequence gives that sequence back |
| Utf8.EncodeDecode | app/controllers/concerns/name_judgment.rb:5 | every byte string that decodes is exactly the encoding of what it decodes to |
| Utf8.DecodeFailsIffNotEncoding | app/controllers/concerns/name_judgment.rb:5 | decoding fails exactly when the bytes are the encoding of no scalar sequence |
| Utf8.LoneC0IsRejected | spec/controllers/concerns/name_judgment_spec.rb:12-14 | the single byte 0xC0 is malformed |
| Utf8.KichiDecodes | spec/controllers/concerns/name_judgment_spec.rb:9 | the bytes E5 90 89 of "吉" decode to the single code point 0x5409 |
| HexFormat.AlternateHex | app/controllers/concerns/name_judgment.rb:8 | `sprintf("%#x")`: "0" for zero; otherwise "0x" followed by a hex string that upcases to the canonical upper-case hexadecimal |
| HexFormat.RenderCodePoint | app/controllers/concerns/name_judgment.rb:8-10 | `%#x`, then deleting two characters, then `upcase!`: the canonical upper-case hexadecimal of a nonzero code point, and the empty string for U+0000 (whose `%#x` has no "0x" prefix) |
| HexFormat.RenderRoundTrip | app/controllers/concerns/name_judgment.rb:8-10 | the key of a nonzero code point is a nonempty upper-case hex string without a leading zero, and it parses back to the code point |
| HexFormat.RenderInjective | app/controllers/concerns/name_judgment.rb:8-10 | distinct nonzero code points get distinct keys |
| HexFormat.KichiRenders | spec/controllers/concerns/name_judgment_spec.rb:9 | 0x5409 renders as "5409" |
| NameJudgment.RenderAll | app/controllers/concerns/name_judgment.rb:7-11 | one key per code point, in order, each being that code point's rendering |
| NameJudgment.ChangeUnicodePoint | app/controllers/concerns/name_judgment.rb:4-13 | the in-place loop over `arr_code` yields the rendering of every decoded code point in order; it raises ArgumentError exactly when the bytes are not valid UTF-8; there is one key per character |
| NameJudgment.UnicodePointsOfEncoding | app/controllers/concerns/name_judgment.rb:4-13 | for any scalar sequence, the keys of its encoding: one per code point; empty for U+0000; otherwise the canonical upper hex, which parses back to the code point |
| NameJudgment.UnicodePointsEdges | app/controllers/concerns/name_judgment.rb:4-13 | the empty string gives no keys; the lone byte 0xC0 raises ArgumentError |
| NameJudgment.KichiKeys | spec/controllers/concerns/name_judgment_spec.rb:9 | `change_unicode_point("吉") == ["5409"]` |
| NameJudgment.UnicodePoints | app/controllers/concerns/name_judgment.rb:4-13 | `change_unicode_point` succeeds exactly when the bytes are valid UTF-8, and then gives one key per decoded code point, in order, each its rendering; otherwise it raises ArgumentError |
| NameJudgment.AllCountGet | app/controllers/concerns/name_judgment.rb:16-18 | the total equals the sum, over each distinct key, of the counts of all rows with that key; a key repeated in the name is counted once |
| NameJudgment.AllCountGetOfNoKeys | app/controllers/concerns/name_judgment.rb:16-18 | an empty key list totals 0 |
| NameJudgment.AllCountGetRepeatedKey | app/controllers/concerns/name_judgment.rb:16-18 | adding a key that is already in the list does not change the total |
| NameJudgment.AllCountGetKeyWithoutRows | app/controllers/concerns/name_judgment.rb:16-18 | a character that has no `string_counts` row contributes nothing |
| NameJudgment.Distinct | app/controllers/concerns/name_judgment.rb:17 | the distinct keys have the same members as the key list and no duplicates |
| NameJudgment.NameCountResult | app/controllers/concerns/name_judgment.rb:20-31 | `find(count)` raises RecordNotFound for an unknown total; otherwise the result is Ok exactly when the rank, comment and detail rows all exist, and it then carries the count and their texts, with the detail row looked up by the same id (`foreign_key: "id"`) |
| StringCounts.Where | app/models/string_count.rb:2 | `where(unicode: list)` keeps every row whose key is in the list, with its multiplicity, and no other row |
| StringCounts.ByUnicode | app/models/string_count.rb:2 | `by_unicode(key)` returns exactly the rows with that key, with their multiplicity |
| StringCounts.WhereMembershipOnly | app/controllers/concerns/name_judgment.rb:17 | the filter depends only on which keys are in the list, not on their order or repetition |
| StringCounts.ByUnicodeExample | spec/models/string_count_spec.rb:14-25 | with rows A/10, B/20, A/15, `by_unicode('A')` gives the two A rows |
| StringCounts.ByUnicodeCaseSensitive | spec/models/string_count_spec.rb:32-40 | no row is returned for both "A" and "a" |
| StringCounts.ByUnicodeMissingKey | spec/models/string_count_spec.rb:27-30 | a key that no row has gives the empty result |
| NameJudgmentController.Index | app/controllers/api/v1/name_judgment_controller.rb:4-24 | an exception from `present?` escapes the action; a blank name gets 400 "名前を入力してください"; a present name gets exactly the answer of the `begin ... rescue` block |
| NameJudgmentController.Present | app/controllers/api/v1/name_judgment_controller.rb:5 | `present?`: nil and the empty string are not present; other bytes that are not valid UTF-8 raise ArgumentError; a valid name is present exactly when some character is not Unicode white space |
| NameJudgmentController.IsBlank | app/controllers/api/v1/name_judgment_controller.rb:5 | `blank?` on a decoded string: every character is Unicode white space |
| NameJudgmentController.Respond | app/controllers/api/v1/name_judgment_controller.rb:10-23 | an exception from the judgment gives 500 with "予期しないエラーが発生しました: " and its message; a judgment gives 200 with count, rank, comment and detail |
| NameJudgment.Judge | app/controllers/api/v1/name_judgment_controller.rb:11-13 | the three steps in order: bytes that are not valid UTF-8 raise ArgumentError; otherwise the result is `name_count_result` of `all_count_get` of the keys |
| NameJudgmentController.BlankNameSkipsLookup | app/controllers/api/v1/name_judgment_controller.rb:5-8 | for a name that is not present the answer is 400 and does not depend on the database |
| NameJudgmentController.IndexOkIff | app/controllers/api/v1/name_judgment_controller.rb:10-19 | 200 exactly when the name is present and decoding, summing and resolving all succeed; the body is then the judgment, whose count is the total of the name's keys |
| NameJudgmentController.MalformedNameEscapes | app/controllers/api/v1/name_judgment_controller.rb:5 | a non-empty name that is not valid UTF-8 makes `present?` raise ArgumentError "invalid byte sequence in UTF-8", outside the `begin`, so no response is rendered and the exception escapes |
| NameJudgmentController.DecoderErrorNeverRescued | app/controllers/api/v1/name_judgment_controller.rb:5-23 | whenever `present?` lets a name through, `change_unicode_point` succeeds on it, so the 500 carrying the decoder's ArgumentError is never rendered |
| NameJudgmentController.MissingTotalIs500 | app/controllers/api/v1/name_judgment_controller.rb:13-23 | a total with no `result_string_counts` row gives 500 with the RecordNotFound message, not 404 |
| NameJudgmentController.IndexNever404 | app/controllers/api/v1/name_judgment_controller.rb:15-19 | whenever `index` answers, it answers 200, 400 or 500 |
| NameJudgmentController.KichiJudgment | app/controllers/api/v1/name_judgment_controller.rb:4-24 | over a small database, "吉" gets 200 with the judgment for its total |
| ApiControllers.ValidApiVersion | app/controllers/api/base_controller.rb:137-139 | `valid_api_version?` of the base class accepts exactly "v1", the only supported version |
| ApiControllers.ValidApiVersionV1 | app/controllers/api/v1/base_controller.rb:24-26 | the V1 override accepts exactly "v1" |
| ApiControllers.ValidApiVersionsAgree | app/controllers/api/v1/base_controller.rb:24-26 | the base and V1 definitions of `valid_api_version?` accept the same versions |
| ApiControllers.RequestedVersion | app/controllers/api/base_controller.rb:32 | the Accept-Version header wins, then the `version` parameter, then "v1" |
| ApiControllers.ExtractToken | app/controllers/api/base_controller.rb:146-151 | a token exists exactly when the header starts with "Bearer "; it is the rest of the header after the whitespace run that follows "Bearer" |
| ApiControllers.BearerTokenRoundTrip | app/controllers/api/base_controller.rb:150 | "Bearer", then a run of whitespace, then a token that does not start with whitespace: extraction returns that token unchanged |
| ApiControllers.ExtractTokenExample | spec/controllers/api/base_controller_spec.rb:248 | "Bearer test_token_123" gives "test_token_123" |
| ApiControllers.ExtractTokenRejects | app/controllers/api/base_controller.rb:147-148 | no header, or another scheme, gives nil |
| ApiControllers.AuthenticateWithToken | app/controllers/api/base_controller.rb:153-166 | a user is returned exactly when the token is "valid_token" and a first user exists, and it is that user |
| ApiControllers.Authenticate | app/controllers/api/base_controller.rb:88-94 | a header authenticates exactly when its extracted token is "valid_token" and a user exists, and then as that user |
| ApiControllers.AuthenticateAccepts | spec/controllers/api/base_controller_spec.rb:197 | "Bearer valid_token" authenticates as the first user |
| ApiControllers.AuthenticateRejects | spec/controllers/api/base_controller_spec.rb:215 | "Bearer invalid_token" and a missing header do not authenticate |
| ApiControllers.Meta | app/controllers/api/base_controller.rb:45-48 | the meta keys are timestamp, version and the caller's keys; the caller's values override the defaults |
| ApiControllers.SuccessEnvelope | app/controllers/api/base_controller.rb:40-52 | the success body has exactly the keys success, message, data and meta, with success true and the given message, data and meta |
| ApiControllers.ErrorEnvelope | app/controllers/api/base_controller.rb:54-66 | the error body has exactly the keys success, message, errors and meta, with success false and the given message, errors and meta |
| ApiControllers.EnvelopesDiffer | app/controllers/api/base_controller.rb:40-66 | no body is both a success envelope and an error envelope |
| ApiControllers.V1FeatureEnabled | app/controllers/api/v1/base_controller.rb:16-19 | nil when no feature list is configured; true exactly when the feature is listed |
| ApiControllers.ConfiguredV1FeaturesExamples | config/application.rb:107-112 | with the configured list, "pagination" is enabled and an unlisted feature is not |
| ApiControllers.Controller.constructor | app/controllers/api/base_controller.rb:4 | a fresh controller has no memoised version, no user and nothing rendered |
| ApiControllers.Controller.ApiVersion | app/controllers/api/base_controller.rb:141-143 | `@api_version ||= ...`: once set, the version never changes; the first call stores the requested version |
| ApiControllers.Controller.SetDefaultFormat | app/controllers/api/base_controller.rb:26-28 | the format becomes JSON unless a `format` parameter was given |
| ApiControllers.Controller.RenderSuccess | app/controllers/api/base_controller.rb:40-52 | appends one response with the success envelope, stamped with the current time and the memoised version |
| ApiControllers.Controller.RenderError | app/controllers/api/base_controller.rb:54-66 | appends one response with the error envelope; the defaults are "Error" and 422 |
| ApiControllers.Controller.CheckApiVersion | app/controllers/api/base_controller.rb:31-37 | renders 406 "Unsupported API version" exactly when the requested version is not valid for this class; otherwise nothing changes |
| ApiControllers.Controller.AuthenticateApiUser | app/controllers/api/base_controller.rb:88-94 | `@current_user` becomes what the header authenticates as; without a user, exactly one 401 "Authentication required" is appended, with the memoised (or newly requested) version in its meta; with a user, nothing is rendered and the version is untouched |
| ApiControllers.Controller.HandleMissingParameter | app/controllers/api/base_controller.rb:125-130 | appends exactly one response, 400 "Missing required parameter: <name>", stamped with the current time; `@api_version` keeps its memoised value, or is set to the requested version if it had none, and the meta reports it |
| ApiControllers.Controller.HandleValidationError | app/controllers/api/base_controller.rb:113-119 | appends exactly one response, 422 "Validation failed" with the full error messages as `errors`, stamped with the current time; `@api_version` keeps its memoised value, or is set to the requested version if it had none, and the meta reports it |
| ApiControllers.Controller.HandleNotFoundApi | app/controllers/api/base_controller.rb:121-123 | appends exactly one response, 404 "Resource not found", stamped with the current time; `@api_version` keeps its memoised value, or is set to the requested version if it had none, and the meta reports it |
| ApiControllers.Controller.HandleUnauthorized | app/controllers/api/base_controller.rb:132-134 | appends exactly one response, 403 "Access denied", stamped with the current time; `@api_version` keeps its memoised value, or is set to the requested version if it had none, and the meta reports it |
| ApiControllers.Controller.SetApiVersionV1 | app/controllers/api/v1/base_controller.rb:11-13 | the memoised version becomes "v1" |
| ApiControllers.Controller.RunBeforeActions | app/controllers/api/v1/base_controller.rb:7 | the action runs exactly when the requested version is valid, with the V1 version fixed to "v1"; otherwise the chain halts with a single 406 whose meta reports the requested version; the format becomes JSON unless a `format` parameter was given |
| HealthController.AllOk | app/controllers/health_controller.rb:21 | `all?`: true exactly when every check's status is "ok" |
| HealthController.Failing | app/controllers/health_controller.rb:42 | `select`: exactly the checks that are not "ok", and no more of them than there were checks |
| HealthController.Compact | app/controllers/health_controller.rb:57-64 | `compact` keeps exactly the checks that ran, and no more checks than it was given |
| HealthController.CompactAppend | app/controllers/health_controller.rb:57-64 | `compact` commutes with concatenation, so the checks that ran keep their order |
| HealthController.PerformHealthChecks | app/controllers/health_controller.rb:57-64 | database, then redis if it ran, then disk space, then memory if it gave figures |
| HealthController.PerformReadinessChecks | app/controllers/health_controller.rb:66-71 | database, then redis if it ran |
| HealthController.ReadinessIsPrefixOfHealth | app/controllers/health_controller.rb:57-71 | the readiness checks are a prefix of the detailed health checks |
| HealthController.Show | app/controllers/health_controller.rb:8-15 | always 200 "ok", with the configured version or "1.0.0" |
| HealthController.Detailed | app/controllers/health_controller.rb:18-31 | status "ok" exactly when every check is "ok", otherwise "error"; 200 exactly when the status is "ok", otherwise 503; every check is listed |
| HealthController.WarningFailsDetailed | app/controllers/health_controller.rb:21-22 | one "warning" check makes the detailed answer 503 |
| HealthController.NoChecksIsOk | app/controllers/health_controller.rb:21-22 | with no checks, both `detailed` and `ready` answer 200 |
| HealthController.FailingAppend | app/controllers/health_controller.rb:42 | selecting the failing checks commutes with concatenation, so their order is kept |
| HealthController.FailingEmptyIff | app/controllers/health_controller.rb:37-42 | there are no failing checks exactly when all checks are "ok" |
| HealthController.Ready | app/controllers/health_controller.rb:34-45 | 200 "ready" exactly when every check is "ok"; otherwise 503 "not_ready", listing exactly the failing checks in order (at least one) |
| HealthController.Live | app/controllers/health_controller.rb:48-53 | always 200 "alive" with the timestamp |

## Left out

- Utf8.Decode: follows RFC 3629 strictly. It rejects overlong forms, surrogates, values above
  U+10FFFF and bytes F5–FF. This is Ruby's own test of a valid UTF-8 string, the one `present?`
  applies. Ruby's `unpack("U*")` is more lenient with some of these inputs, and that extra
  tolerance is not modelled.
- NameJudgment.UnicodePoints: invalid bytes raise one ArgumentError with one fixed message. Ruby's
  `unpack("U*")` words its messages by case ("malformed UTF-8 character (expected 2 bytes, given
  1 bytes)", "redundant UTF-8 sequence") and accepts some inputs this model rejects. Through
  `index` the difference cannot show, because `present?` raises on every such name first.
- NameJudgment.NameCountResult: exception messages follow Ruby's wording approximately. For a nil
  association the message is the `NoMethodError` text with only the method name.
- NameJudgment.NameCountResult: a NULL `rank`, `comment` or `detaile` column is not modelled.
  Every text column holds a string.
- A NULL `count` column in `string_counts` is not modelled. Every count is an integer.
- NameJudgmentController.Index: `params[:name]` given as an array or a hash is not modelled.
  Rails' own rejection of invalidly encoded parameters, before the action runs, is not modelled.
  What Rails makes of an exception that escapes the action is not modelled either; `index`
  returns that exception.
- JSON key order is not modelled. Bodies are maps.
- Ruby's `upcase!` is Unicode-aware. The model upcases ASCII only, which is all that hex digits
  need.
- Apart from `HandleValidationError`, `HandleNotFoundApi`, `HandleUnauthorized` and
  `HandleMissingParameter`, the `rescue_from` dispatch is not modelled: which exception class
  reaches which handler is Rails' job.
- `render_paginated_success`, `authorize_resource!`, `api_params`, `set_cors_headers` and the
  commented-out `check_rate_limit` are not modelled. They depend on serializers, Pundit policies,
  strong parameters and response headers, none of which is part of this model.
- Rails raises a DoubleRenderError when an action renders twice. `rendered` records every render
  in order instead.
- The health checks themselves are inputs. Those checks are the database query, the Redis ping,
  `statvfs` and `/proc/meminfo`. Their durations, sizes, percentages and the 90 % warning
  threshold are floating-point I/O results and are not modelled.
- `Time.current.iso8601`, `Rails.env` and `config.version` are parameters.
- `ApplicationController` is not part of this model. Neither are the ORM's queries and schema.
