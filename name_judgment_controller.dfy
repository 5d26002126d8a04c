/** `Api::V1::NameJudgmentController#index`: `GET /api/v1/name_judgment?name=...`. */
module NameJudgmentController {
  import opened Wrappers
  import opened Utf8
  import opened Json
  import opened StringCounts
  import opened NameJudgment

  const NameRequiredMessage := "名前を入力してください"
  const UnexpectedErrorPrefix := "予期しないエラーが発生しました: "

  /** Unicode White_Space, which `[[:space:]]` matches in a UTF-8 string. */
  predicate IsSpace(c: int) {
    || 0x09 <= c <= 0x0D || c == 0x20 || c == 0x85 || c == 0xA0 || c == 0x1680
    || 0x2000 <= c <= 0x200A || c == 0x2028 || c == 0x2029 || c == 0x202F || c == 0x205F
    || c == 0x3000
  }

  /** The message of the ArgumentError a regular expression raises on a string that is not UTF-8. */
  const InvalidByteSequenceMessage := "invalid byte sequence in UTF-8"

  /** `blank?` on the characters of a valid string: white space only (or nothing at all). */
  predicate IsBlank(cs: seq<int>) {
    forall i :: 0 <= i < |cs| ==> IsSpace(cs[i])
  }

  /**
   * `params[:name].present?`: false for a missing or empty name. On any other string `blank?`
   * matches `/\A[[:space:]]*\z/`, and matching raises ArgumentError when the bytes are not
   * UTF-8; otherwise the name is present exactly when some character is not white space.
   */
  function Present(name: Option<seq<byte>>): (r: Result<bool, Exception>)
    ensures r.Err? <==> name.Some? && name.value != [] && Decode(name.value).None?
    ensures r.Err? ==> r.error == ArgumentError(InvalidByteSequenceMessage)
    ensures r.Ok? ==> (r.value <==> name.Some? && Decode(name.value).Some? && !IsBlank(Decode(name.value).value))
  {
    if name.None? || name.value == [] then
      assert name.Some? ==> Decode(name.value) == Some([]);
      Ok(false)
    else
      match Decode(name.value)
      case None => Err(ArgumentError(InvalidByteSequenceMessage))
      case Some(cs) => Ok(!IsBlank(cs))
  }

  function ErrorJson(message: string): Json {
    Obj(map["error" := Str(message)])
  }

  function JudgmentJson(j: Judgment): Json {
    Obj(map["count" := Int(j.count), "rank" := Str(j.rank), "comment" := Str(j.comment), "detail" := Str(j.detail)])
  }

  /** Ruby truthiness of `result[:error]`: the key is there and holds neither nil nor false. */
  predicate HasErrorKey(body: Json) {
    body.Obj? && "error" in body.fields && body.fields["error"] != Null && body.fields["error"] != Bool(false)
  }

  /**
   * The `begin ... rescue` block of `index`: decode, sum and resolve the name; any exception
   * on the way becomes 500 with the exception's message after a fixed prefix.
   */
  function Respond(db: Tables, name: seq<byte>): (resp: Response)
    ensures Judge(db, name).Err? ==>
      resp == Response(StatusInternalServerError, ErrorJson(UnexpectedErrorPrefix + Judge(db, name).error.message))
    ensures Judge(db, name).Ok? ==> resp == Response(StatusOk, JudgmentJson(Judge(db, name).value))
  {
    match Judge(db, name)
    case Err(e) => Response(StatusInternalServerError, ErrorJson(UnexpectedErrorPrefix + e.message))
    case Ok(result) =>
      var body := JudgmentJson(result);
      if HasErrorKey(body) then Response(StatusNotFound, body) else Response(StatusOk, body)
  }

  /**
   * `index`: the `present?` test runs before the `begin`, so an exception it raises escapes
   * the action (Err). A missing or blank name is answered at once with 400; a present one
   * goes through the rescued block.
   */
  function Index(db: Tables, name: Option<seq<byte>>): (r: Result<Response, Exception>)
    ensures Present(name).Err? ==> r == Err(Present(name).error)
    ensures Present(name) == Ok(false) ==> r == Ok(Response(StatusBadRequest, ErrorJson(NameRequiredMessage)))
    ensures Present(name) == Ok(true) ==> name.Some? && r == Ok(Respond(db, name.value))
  {
    match Present(name)
    case Err(e) => Err(e)
    case Ok(present) =>
      if !present then Ok(Response(StatusBadRequest, ErrorJson(NameRequiredMessage)))
      else Ok(Respond(db, name.value))
  }

  /** A missing or blank name never reaches the tables: the answer is 400 whatever they hold. */
  lemma BlankNameSkipsLookup(db1: Tables, db2: Tables, name: Option<seq<byte>>)
    requires Present(name) == Ok(false)
    ensures Index(db1, name) == Index(db2, name)
    ensures Index(db1, name).Ok? && Index(db1, name).value.status == StatusBadRequest
  {
  }

  /**
   * The success path: 200 exactly when the name is present and its total has a complete
   * result row; the body is then the judgment for the name's stroke total.
   */
  lemma IndexOkIff(db: Tables, name: Option<seq<byte>>)
    ensures Index(db, name).Ok? && Index(db, name).value.status == StatusOk <==>
      && Present(name) == Ok(true)
      && Decode(name.value).Some?
      && NameCountResult(db, AllCountGet(db.stringCounts, UnicodePoints(name.value).value)).Ok?
    ensures Index(db, name).Ok? && Index(db, name).value.status == StatusOk ==>
      && Judge(db, name.value).Ok?
      && Index(db, name).value.body == JudgmentJson(Judge(db, name.value).value)
      && Judge(db, name.value).value.count == AllCountGet(db.stringCounts, UnicodePoints(name.value).value)
  {
  }

  /**
   * A non-empty name that is not UTF-8 makes `present?` raise ArgumentError outside the
   * `begin`, so the exception escapes the action and no 500 body of the rescue is rendered.
   */
  lemma MalformedNameEscapes(db: Tables, name: seq<byte>)
    requires name != [] && Decode(name).None?
    ensures Index(db, Some(name)) == Err(ArgumentError(InvalidByteSequenceMessage))
  {
  }

  /**
   * The decoder's own ArgumentError never reaches the rescue: every name that passes
   * `present?` decodes, so no 500 carries the decoder's message.
   */
  lemma DecoderErrorNeverRescued(db: Tables, name: Option<seq<byte>>)
    ensures Present(name) == Ok(true) ==> UnicodePoints(name.value).Ok?
    ensures Index(db, name) != Ok(Response(StatusInternalServerError, ErrorJson(UnexpectedErrorPrefix + MalformedMessage)))
  {
    if Present(name) == Ok(true) {
      RescuedErrorIsNotDecoders(db, name.value);
    }
  }

  lemma RescuedErrorIsNotDecoders(db: Tables, name: seq<byte>)
    requires Decode(name).Some?
    ensures Respond(db, name) != Response(StatusInternalServerError, ErrorJson(UnexpectedErrorPrefix + MalformedMessage))
  {
    var j := Judge(db, name);
    if j.Err? {
      var total := AllCountGet(db.stringCounts, RenderAll(Decode(name).value));
      assert j == NameCountResult(db, total);
      ResolveErrorInitial(db, total);
      PrefixedDiffer(UnexpectedErrorPrefix, j.error.message, MalformedMessage);
      assert ErrorJson(UnexpectedErrorPrefix + j.error.message).fields["error"]
          != ErrorJson(UnexpectedErrorPrefix + MalformedMessage).fields["error"];
    }
  }

  /** The messages `name_count_result` raises start with "Couldn't find" or "undefined method". */
  lemma ResolveErrorInitial(db: Tables, count: int)
    requires NameCountResult(db, count).Err?
    ensures var m := NameCountResult(db, count).error.message; |m| > 0 && (m[0] == 'C' || m[0] == 'u')
  {
    if count in db.resultStringCounts {
      var row := db.resultStringCounts[count];
      var name := if row.rankMasterId !in db.rankMasters then "rank"
        else if row.resultCommentMasterId !in db.resultCommentMasters then "comment" else "detaile";
      assert NameCountResult(db, count).error.message == NilMethodMessage(name);
      assert NilMethodMessage(name)[0] == 'u';
    } else {
      assert NotFoundMessage(count)[0] == 'C';
    }
  }

  lemma PrefixedDiffer(p: string, a: string, b: string)
    requires |a| > 0 && |b| > 0 && a[0] != b[0]
    ensures p + a != p + b
  {
    assert (p + a)[|p|] == a[0];
    assert (p + b)[|p|] == b[0];
  }

  /**
   * As written, a total without a result row raises in `find` and so ends as 500, not 404;
   * the 404 branch is never taken, because the hash `name_count_result` builds has no `:error` key.
   */
  lemma MissingTotalIs500(db: Tables, name: seq<byte>)
    requires Present(Some(name)) == Ok(true)
    requires AllCountGet(db.stringCounts, UnicodePoints(name).value) !in db.resultStringCounts
    ensures Index(db, Some(name)) == Ok(Response(StatusInternalServerError,
      ErrorJson(UnexpectedErrorPrefix + NotFoundMessage(AllCountGet(db.stringCounts, UnicodePoints(name).value)))))
  {
  }

  lemma IndexNever404(db: Tables, name: Option<seq<byte>>)
    ensures Index(db, name).Ok? ==> Index(db, name).value.status in {StatusOk, StatusBadRequest, StatusInternalServerError}
  {
  }

  /** "吉" with one stroke row of 6 and a result row for 6 gives 200 with that judgment. */
  lemma KichiJudgment()
    ensures
      var db := Tables([StringCount("5409", 6)], map[6 := ResultStringCount(1, 2)],
                       map[1 := "A"], map[2 := "Good"], map[6 := "詳細"]);
      Index(db, Some([0xE5, 0x90, 0x89])) == Ok(Response(StatusOk, JudgmentJson(Judgment(6, "A", "Good", "詳細"))))
  {
    var db := Tables([StringCount("5409", 6)], map[6 := ResultStringCount(1, 2)],
                     map[1 := "A"], map[2 := "Good"], map[6 := "詳細"]);
    KichiKeys();
    KichiDecodes();
    assert !IsSpace(0x5409);
    assert Present(Some([0xE5, 0x90, 0x89])) == Ok(true);
    var t := db.stringCounts;
    assert Where(t, ["5409"]) == [StringCount("5409", 6)] by {
      assert t[1..] == [];
    }
    assert AllCountGet(t, ["5409"]) == 6 by {
      assert [StringCount("5409", 6)][1..] == [];
    }
  }
}
