/**
 * The `string_counts` table (stroke count per character) and the `where(unicode: ...)`
 * filter that both `StringCount.by_unicode` and the name-judgment sum use.
 */
module StringCounts {

  /** One row: the character's code point as upper-case hex, and its stroke count. */
  datatype StringCount = StringCount(unicode: string, count: int)

  /** `where(unicode: keys)`: the rows whose key is one of `keys`, in table order, each row as often as it occurs. */
  function Where(table: seq<StringCount>, keys: seq<string>): (rows: seq<StringCount>)
    ensures forall r :: multiset(rows)[r] == if r.unicode in keys then multiset(table)[r] else 0
    ensures forall i :: 0 <= i < |rows| ==> rows[i].unicode in keys
    ensures |rows| <= |table|
  {
    if table == [] then []
    else
      assert table == [table[0]] + table[1..];
      (if table[0].unicode in keys then [table[0]] else []) + Where(table[1..], keys)
  }

  /** `scope :by_unicode, ->(unicode) { where(unicode: unicode) }` with one key. */
  function ByUnicode(table: seq<StringCount>, key: string): (rows: seq<StringCount>)
    ensures forall r :: multiset(rows)[r] == if r.unicode == key then multiset(table)[r] else 0
    ensures forall i :: 0 <= i < |rows| ==> rows[i].unicode == key
  {
    Where(table, [key])
  }

  /** `pluck(:count).sum`: the total of the counts, 0 for no rows. */
  function SumCounts(rows: seq<StringCount>): int {
    if rows == [] then 0 else rows[0].count + SumCounts(rows[1..])
  }

  /** The filter depends only on which keys are listed, not on their order or repetition. */
  lemma {:induction false} WhereMembershipOnly(table: seq<StringCount>, a: seq<string>, b: seq<string>)
    requires forall k :: k in a <==> k in b
    ensures Where(table, a) == Where(table, b)
  {
    if table != [] {
      WhereMembershipOnly(table[1..], a, b);
    }
  }

  /** Every row with the key, and nothing else: the `by_unicode('A')` of two 'A' rows and one 'B' row is both 'A' rows. */
  lemma ByUnicodeExample()
    ensures ByUnicode([StringCount("A", 10), StringCount("B", 20), StringCount("A", 15)], "A")
         == [StringCount("A", 10), StringCount("A", 15)]
  {
    var t := [StringCount("A", 10), StringCount("B", 20), StringCount("A", 15)];
    assert t[1..][1..][1..] == [];
    assert t[1..][1..] == [StringCount("A", 15)];
    assert t[1..] == [StringCount("B", 20), StringCount("A", 15)];
  }

  /** Matching is exact, so 'A' and 'a' select disjoint sets of rows. */
  lemma ByUnicodeCaseSensitive(table: seq<StringCount>)
    ensures forall r :: r in ByUnicode(table, "A") ==> r !in ByUnicode(table, "a")
  {
    forall r | r in ByUnicode(table, "A") ensures r !in ByUnicode(table, "a") {
      assert multiset(ByUnicode(table, "A"))[r] > 0;
    }
  }

  /** A key that no row has selects nothing. */
  lemma {:induction false} ByUnicodeMissingKey(table: seq<StringCount>, key: string)
    requires forall i :: 0 <= i < |table| ==> table[i].unicode != key
    ensures ByUnicode(table, key) == []
  {
    if table != [] {
      ByUnicodeMissingKey(table[1..], key);
    }
  }
}
