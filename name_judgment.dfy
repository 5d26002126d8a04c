/**
 * The `NameJudgment` concern: a name's characters as hex keys, the total stroke count of
 * those keys, and the judgment stored for that total.
 */
module NameJudgment {
  import opened Wrappers
  import opened Text
  import opened Utf8
  import opened HexFormat
  import opened StringCounts

  /** The exceptions the pipeline can raise, each with its `message`. */
  datatype Exception =
    | ArgumentError(message: string)   // `unpack("U*")` on malformed UTF-8
    | RecordNotFound(message: string)  // `ResultStringCount.find` with no such id
    | NoMethodError(message: string)   // an association that is nil, then dereferenced

  const MalformedMessage := "malformed UTF-8 character"

  function NotFoundMessage(id: int): string {
    "Couldn't find ResultStringCount with 'id'=" + IntToDecimal(id)
  }

  function NilMethodMessage(name: string): string {
    "undefined method `" + name + "' for nil:NilClass"
  }

  /** A `result_string_counts` row: the ids of its rank and its comment. */
  datatype ResultStringCount = ResultStringCount(rankMasterId: int, resultCommentMasterId: int)

  /** The reference tables the pipeline reads; each master table maps an id to its text column. */
  datatype Tables = Tables(
    stringCounts: seq<StringCount>,
    resultStringCounts: map<int, ResultStringCount>,
    rankMasters: map<int, string>,
    resultCommentMasters: map<int, string>,
    resultDetaileMasters: map<int, string>)

  /** The hash `name_count_result` returns: `{count:, rank:, comment:, detail:}`. */
  datatype Judgment = Judgment(count: int, rank: string, comment: string, detail: string)

  /** The rendering of every code point, one string each, in order. */
  function RenderAll(codes: seq<int>): (keys: seq<string>)
    requires AllScalars(codes)
    ensures |keys| == |codes|
    ensures forall i :: 0 <= i < |codes| ==> keys[i] == RenderCodePoint(codes[i])
  {
    if codes == [] then [] else [RenderCodePoint(codes[0])] + RenderAll(codes[1..])
  }

  /**
   * What `change_unicode_point` returns for the bytes of a name, or the exception it raises:
   * ArgumentError exactly when the bytes are not UTF-8, otherwise one key per character, in order.
   */
  function UnicodePoints(s: seq<byte>): (r: Result<seq<string>, Exception>)
    ensures r.Ok? <==> Decode(s).Some?
    ensures r.Err? ==> r.error == ArgumentError(MalformedMessage)
    ensures r.Ok? ==> |r.value| == |Decode(s).value|
    ensures r.Ok? ==> forall i :: 0 <= i < |r.value| ==> r.value[i] == RenderCodePoint(Decode(s).value[i])
  {
    match Decode(s)
    case None => Err(ArgumentError(MalformedMessage))
    case Some(codes) => Ok(RenderAll(codes))
  }

  /** `change_unicode_point`: the loop that fills `unicode[i]` and edits it in place. */
  method ChangeUnicodePoint(s: seq<byte>) returns (r: Result<seq<string>, Exception>)
    ensures r == UnicodePoints(s)
    ensures r.Ok? <==> Decode(s).Some?
    ensures r.Ok? ==> |r.value| == |Decode(s).value|
  {
    var decoded := Decode(s);
    if decoded.None? {
      return Err(ArgumentError(MalformedMessage));
    }
    var arrCode := decoded.value;
    var unicode := new string[|arrCode|];
    for i := 0 to |arrCode|
      invariant forall j :: 0 <= j < i ==> unicode[j] == RenderCodePoint(arrCode[j])
    {
      ghost var done := unicode[..i];
      unicode[i] := AlternateHex(arrCode[i]);
      unicode[i] := DeletePrefix(unicode[i], 2);
      unicode[i] := Upcase(unicode[i]);
      assert unicode[i] == RenderCodePoint(arrCode[i]);
      assert unicode[..i] == done;
    }
    var keys := RenderAll(arrCode);
    assert forall j :: 0 <= j < |keys| ==> unicode[..][j] == keys[j];
    assert unicode[..] == keys;
    assert UnicodePoints(s) == Ok(keys);
    r := Ok(unicode[..]);
  }

  /**
   * One string per character, in order, and each reads back as its code point: for the
   * UTF-8 encoding of any scalar values, element i is the upper-case hex of cs[i] without a
   * leading zero (empty for U+0000).
   */
  lemma {:induction false} UnicodePointsOfEncoding(cs: seq<int>)
    requires AllScalars(cs)
    ensures UnicodePoints(Encode(cs)).Ok?
    ensures |UnicodePoints(Encode(cs)).value| == |cs|
    ensures forall i :: 0 <= i < |cs| && cs[i] == 0 ==> UnicodePoints(Encode(cs)).value[i] == ""
    ensures forall i :: 0 <= i < |cs| && cs[i] > 0 ==>
      var h := UnicodePoints(Encode(cs)).value[i];
      h == UpperHex(cs[i]) && IsUpperHexString(h) && h[0] != '0' && ParseHex(h) == cs[i]
  {
    DecodeEncode(cs);
    var out := UnicodePoints(Encode(cs)).value;
    forall i | 0 <= i < |cs| && cs[i] > 0
      ensures out[i] == UpperHex(cs[i]) && IsUpperHexString(out[i]) && out[i][0] != '0' && ParseHex(out[i]) == cs[i]
    {
      RenderRoundTrip(cs[i]);
    }
  }

  /** The empty name decodes to no keys; malformed bytes raise ArgumentError and give no keys. */
  lemma UnicodePointsEdges()
    ensures UnicodePoints([]) == Ok([])
    ensures UnicodePoints([0xC0]) == Err(ArgumentError(MalformedMessage))
  {
    assert Decode([]) == Some([]);
    LoneC0IsRejected();
  }

  /** "吉" (E5 90 89) gives ["5409"]. */
  lemma KichiKeys()
    ensures UnicodePoints([0xE5, 0x90, 0x89]) == Ok(["5409"])
  {
    KichiDecodes();
    KichiRenders();
    assert RenderAll([0x5409]) == ["5409"];
  }

  /**
   * `all_count_get`: `StringCount.where(unicode: unicode).pluck(:count).sum`. The total is the
   * sum, over the distinct keys of the name, of every row that has the key: a character that
   * repeats in the name counts once, and all rows sharing a key count.
   */
  function AllCountGet(table: seq<StringCount>, unicode: seq<string>): (total: int)
    ensures total == SumPerKey(table, Distinct(unicode))
  {
    WhereMembershipOnly(table, unicode, Distinct(unicode));
    SumIsSumPerKey(table, Distinct(unicode));
    SumCounts(Where(table, unicode))
  }

  /** The stroke total of one key: all rows with that key, summed. */
  function KeyTotal(table: seq<StringCount>, key: string): int {
    SumCounts(ByUnicode(table, key))
  }

  /** Reference total: each listed key's own total, added up. */
  function SumPerKey(table: seq<StringCount>, keys: seq<string>): int {
    if keys == [] then 0 else KeyTotal(table, keys[0]) + SumPerKey(table, keys[1..])
  }

  predicate NoDuplicates(keys: seq<string>) {
    forall i, j :: 0 <= i < j < |keys| ==> keys[i] != keys[j]
  }

  /** The keys once each. */
  function Distinct(keys: seq<string>): (d: seq<string>)
    ensures forall k :: k in d <==> k in keys
    ensures NoDuplicates(d)
  {
    if keys == [] then []
    else
      var d := Distinct(keys[..|keys| - 1]);
      var k := keys[|keys| - 1];
      assert forall x :: x in keys <==> x in keys[..|keys| - 1] || x == k by {
        assert keys == keys[..|keys| - 1] + [k];
      }
      if k in d then d else d + [k]
  }

  lemma WhereCons(r: StringCount, table: seq<StringCount>, keys: seq<string>)
    ensures Where([r] + table, keys) == (if r.unicode in keys then [r] else []) + Where(table, keys)
  {
    assert ([r] + table)[1..] == table;
  }

  lemma SumCountsCons(r: StringCount, rows: seq<StringCount>)
    ensures SumCounts([r] + rows) == r.count + SumCounts(rows)
  {
    assert ([r] + rows)[1..] == rows;
  }

  lemma KeyTotalCons(r: StringCount, table: seq<StringCount>, key: string)
    ensures KeyTotal([r] + table, key) == (if r.unicode == key then r.count else 0) + KeyTotal(table, key)
  {
    WhereCons(r, table, [key]);
    if r.unicode == key {
      SumCountsCons(r, Where(table, [key]));
    } else {
      assert [] + Where(table, [key]) == Where(table, [key]);
    }
  }

  lemma {:induction false} SumPerKeyCons(r: StringCount, table: seq<StringCount>, keys: seq<string>)
    requires NoDuplicates(keys)
    ensures SumPerKey([r] + table, keys) == SumPerKey(table, keys) + (if r.unicode in keys then r.count else 0)
  {
    if keys != [] {
      var k, rest := keys[0], keys[1..];
      KeyTotalCons(r, table, k);
      assert NoDuplicates(rest);
      SumPerKeyCons(r, table, rest);
      assert keys == [k] + rest;
      assert r.unicode in keys <==> r.unicode == k || r.unicode in rest;
      assert k !in rest;
    }
  }

  lemma {:induction false} SumIsSumPerKey(table: seq<StringCount>, keys: seq<string>)
    requires NoDuplicates(keys)
    ensures SumCounts(Where(table, keys)) == SumPerKey(table, keys)
  {
    if table == [] {
      SumPerKeyOfEmpty(keys);
    } else {
      var r, rest := table[0], table[1..];
      assert table == [r] + rest;
      WhereCons(r, rest, keys);
      SumIsSumPerKey(rest, keys);
      SumPerKeyCons(r, rest, keys);
      if r.unicode in keys {
        SumCountsCons(r, Where(rest, keys));
      } else {
        assert [] + Where(rest, keys) == Where(rest, keys);
      }
    }
  }

  lemma {:induction false} SumPerKeyOfEmpty(keys: seq<string>)
    ensures SumPerKey([], keys) == 0
  {
    if keys != [] {
      SumPerKeyOfEmpty(keys[1..]);
    }
  }

  /** No keys, no rows: the total is 0. */
  lemma {:induction false} AllCountGetOfNoKeys(table: seq<StringCount>)
    ensures AllCountGet(table, []) == 0
  {
    if table != [] {
      AllCountGetOfNoKeys(table[1..]);
    }
  }

  /** Listing a key a second time does not add its rows again. */
  lemma AllCountGetRepeatedKey(table: seq<StringCount>, unicode: seq<string>, key: string)
    requires key in unicode
    ensures AllCountGet(table, unicode + [key]) == AllCountGet(table, unicode)
  {
    WhereMembershipOnly(table, unicode + [key], unicode);
  }

  /** A key with no rows adds 0. */
  lemma AllCountGetKeyWithoutRows(table: seq<StringCount>, unicode: seq<string>, key: string)
    requires forall i :: 0 <= i < |table| ==> table[i].unicode != key
    ensures AllCountGet(table, unicode + [key]) == AllCountGet(table, unicode)
  {
    WhereIgnoresAbsentKey(table, unicode, key);
  }

  lemma {:induction false} WhereIgnoresAbsentKey(table: seq<StringCount>, unicode: seq<string>, key: string)
    requires forall i :: 0 <= i < |table| ==> table[i].unicode != key
    ensures Where(table, unicode + [key]) == Where(table, unicode)
  {
    if table != [] {
      WhereIgnoresAbsentKey(table[1..], unicode, key);
    }
  }

  /**
   * `name_count_result(count)`: `ResultStringCount.find(count)` and its rank, comment and
   * detail rows; `find` raises RecordNotFound, and a missing associated row raises
   * NoMethodError when its text column is read.
   */
  function NameCountResult(db: Tables, count: int): (r: Result<Judgment, Exception>)
    ensures count !in db.resultStringCounts ==> r == Err(RecordNotFound(NotFoundMessage(count)))
    ensures r.Ok? <==>
      && count in db.resultStringCounts
      && db.resultStringCounts[count].rankMasterId in db.rankMasters
      && db.resultStringCounts[count].resultCommentMasterId in db.resultCommentMasters
      && count in db.resultDetaileMasters
    ensures r.Ok? ==>
      && r.value.count == count
      && r.value.rank == db.rankMasters[db.resultStringCounts[count].rankMasterId]
      && r.value.comment == db.resultCommentMasters[db.resultStringCounts[count].resultCommentMasterId]
      && r.value.detail == db.resultDetaileMasters[count]
  {
    if count !in db.resultStringCounts then Err(RecordNotFound(NotFoundMessage(count)))
    else
      var row := db.resultStringCounts[count];
      if row.rankMasterId !in db.rankMasters then Err(NoMethodError(NilMethodMessage("rank")))
      else if row.resultCommentMasterId !in db.resultCommentMasters then Err(NoMethodError(NilMethodMessage("comment")))
      // `belongs_to :result_detaile_master, :foreign_key => "id"`: the detail row has the result row's own id
      else if count !in db.resultDetaileMasters then Err(NoMethodError(NilMethodMessage("detaile")))
      else Ok(Judgment(count, db.rankMasters[row.rankMasterId],
                       db.resultCommentMasters[row.resultCommentMasterId], db.resultDetaileMasters[count]))
  }

  /**
   * The pipeline the controller runs on a name: decode, then sum, then resolve. Bytes that are
   * not UTF-8 raise ArgumentError; otherwise the outcome is the judgment for the stroke total
   * of the name's keys.
   */
  function Judge(db: Tables, name: seq<byte>): (r: Result<Judgment, Exception>)
    ensures Decode(name).None? ==> r == Err(ArgumentError(MalformedMessage))
    ensures Decode(name).Some? ==>
      r == NameCountResult(db, AllCountGet(db.stringCounts, RenderAll(Decode(name).value)))
  {
    match UnicodePoints(name)
    case Err(e) => Err(e)
    case Ok(unicode) => NameCountResult(db, AllCountGet(db.stringCounts, unicode))
  }
}
