/**
 * The contents of the expense file, as rows already split into their three
 * fields, and the specification of the two reports computed over them: the
 * overall total and the per-category totals in first-seen order.
 */
module Ledger {
  import opened Amounts

  /** One row of the file: date, category and amount text, in that column order. */
  datatype Row = Row(date: string, category: string, amount: string)

  /** The header row written when the file is created. */
  const Header := Row("Date", "Category", "Amount")

  /**
   * The rows a reader that takes the first row as its field names yields:
   * every row but the first. An empty file yields none.
   */
  function DataRows(rows: seq<Row>): (d: seq<Row>)
    ensures |d| == if rows == [] then 0 else |rows| - 1
    ensures forall i :: 0 <= i < |d| ==> d[i] == rows[i + 1]
  {
    if rows == [] then [] else rows[1..]
  }

  /** Every amount in `rows` is a number (stated row by row, from the last, like the sums below). */
  ghost predicate AllParse(rows: seq<Row>) {
    rows == [] || (AllParse(rows[..|rows| - 1]) && ParseAmount(rows[|rows| - 1].amount).Some?)
  }

  /** AllParse says exactly that each row's amount is a number. */
  lemma {:induction false} AllParseEach(rows: seq<Row>)
    ensures AllParse(rows) <==> forall i :: 0 <= i < |rows| ==> ParseAmount(rows[i].amount).Some?
    decreases |rows|
  {
    if rows != [] {
      var prefix := rows[..|rows| - 1];
      AllParseEach(prefix);
      assert forall i :: 0 <= i < |prefix| ==> prefix[i] == rows[i];
    }
  }

  /** One amount that is not a number spoils the whole file. */
  lemma {:induction false} OneBadSpoilsAll(rows: seq<Row>, k: nat)
    requires k < |rows| && ParseAmount(rows[k].amount).None?
    ensures !AllParse(rows)
    decreases |rows|
  {
    if k < |rows| - 1 {
      var prefix := rows[..|rows| - 1];
      assert prefix[k] == rows[k];
      OneBadSpoilsAll(prefix, k);
    }
  }

  /** `k` is the first row whose amount is not a number: where a scan over `rows` aborts. */
  ghost predicate FirstUnparsable(rows: seq<Row>, k: nat) {
    k < |rows| && ParseAmount(rows[k].amount).None? && AllParse(rows[..k])
  }

  function Amount(r: Row): real
    requires ParseAmount(r.amount).Some?
  {
    ParseAmount(r.amount).value
  }

  /** The sum of all amounts, added in file order. */
  ghost function SumAll(rows: seq<Row>): real
    requires AllParse(rows)
  {
    if rows == [] then 0.0
    else SumAll(rows[..|rows| - 1]) + Amount(rows[|rows| - 1])
  }

  /** The sum of the amounts of the rows whose category is `c`. */
  ghost function SumFor(rows: seq<Row>, c: string): real
    requires AllParse(rows)
  {
    if rows == [] then 0.0
    else SumFor(rows[..|rows| - 1], c)
         + (if rows[|rows| - 1].category == c then Amount(rows[|rows| - 1]) else 0.0)
  }

  /** The categories that occur in `rows`. */
  ghost function CategorySet(rows: seq<Row>): set<string> {
    set i | 0 <= i < |rows| :: rows[i].category
  }

  predicate Distinct(s: seq<string>) {
    forall i, j :: 0 <= i < j < |s| ==> s[i] != s[j]
  }

  /**
   * The categories of `rows` in the order in which each first occurs:
   * the key order of a dictionary filled by one pass over the rows.
   */
  ghost function Categories(rows: seq<Row>): (cs: seq<string>)
    ensures |cs| <= |rows|
    ensures cs == [] <==> rows == []
  {
    if rows == [] then []
    else
      var p := Categories(rows[..|rows| - 1]);
      var c := rows[|rows| - 1].category;
      if c in p then p else p + [c]
  }

  /** No category is listed twice. */
  lemma {:induction false} CategoriesDistinct(rows: seq<Row>)
    ensures Distinct(Categories(rows))
    decreases |rows|
  {
    if rows != [] {
      CategoriesDistinct(rows[..|rows| - 1]);
    }
  }

  /** The first-seen list holds exactly the categories that occur in the rows. */
  lemma {:induction false} CategoriesCover(rows: seq<Row>)
    ensures forall c :: c in Categories(rows) <==> c in CategorySet(rows)
    decreases |rows|
  {
    if rows != [] {
      var prefix := rows[..|rows| - 1];
      CategoriesCover(prefix);
      assert forall i :: 0 <= i < |prefix| ==> prefix[i] == rows[i];
      assert CategorySet(rows) == CategorySet(prefix) + {rows[|rows| - 1].category};
    }
  }

  /** Index of the first row whose category is `c`. */
  ghost function FirstIndex(rows: seq<Row>, c: string): (p: nat)
    requires c in CategorySet(rows)
    ensures p < |rows| && rows[p].category == c
    ensures forall q :: 0 <= q < p ==> rows[q].category != c
  {
    if rows[0].category == c then 0
    else
      var i :| 0 <= i < |rows| && rows[i].category == c;
      assert rows[1..][i - 1] == rows[i];
      1 + FirstIndex(rows[1..], c)
  }

  /** The sum over the categories `cs` of each category's total. */
  ghost function SumOver(cs: seq<string>, rows: seq<Row>): real
    requires AllParse(rows)
  {
    if cs == [] then 0.0
    else SumOver(cs[..|cs| - 1], rows) + SumFor(rows, cs[|cs| - 1])
  }

  /** The sum of a sequence of numbers, added from the front. */
  function Sum(xs: seq<real>): real {
    if xs == [] then 0.0 else Sum(xs[..|xs| - 1]) + xs[|xs| - 1]
  }

  /** The total of a concatenation is the sum of the totals of its parts. */
  lemma {:induction false} SumAllAppend(a: seq<Row>, b: seq<Row>)
    requires AllParse(a) && AllParse(b)
    ensures AllParse(a + b)
    ensures SumAll(a + b) == SumAll(a) + SumAll(b)
    decreases |b|
  {
    if b == [] {
      assert a + b == a;
    } else {
      var b' := b[..|b| - 1];
      SumAllAppend(a, b');
      assert (a + b)[..|a + b| - 1] == a + b';
      assert (a + b)[|a + b| - 1] == b[|b| - 1];
    }
  }

  /** A category that occurs in no row has total zero. */
  lemma {:induction false} SumForAbsent(rows: seq<Row>, c: string)
    requires AllParse(rows)
    requires c !in CategorySet(rows)
    ensures SumFor(rows, c) == 0.0
    decreases |rows|
  {
    if rows != [] {
      var prefix := rows[..|rows| - 1];
      assert forall i :: 0 <= i < |prefix| ==> prefix[i] == rows[i];
      assert CategorySet(prefix) <= CategorySet(rows);
      assert rows[|rows| - 1].category in CategorySet(rows);
      SumForAbsent(prefix, c);
    }
  }

  /**
   * Adding one row to the file adds its amount to the sum over a list of
   * distinct categories exactly when its category is among them.
   */
  lemma {:induction false} SumOverSnoc(cs: seq<string>, rows: seq<Row>, r: Row)
    requires AllParse(rows) && ParseAmount(r.amount).Some?
    requires Distinct(cs)
    ensures AllParse(rows + [r])
    ensures SumOver(cs, rows + [r])
            == SumOver(cs, rows) + (if r.category in cs then Amount(r) else 0.0)
    decreases |cs|
  {
    var rs := rows + [r];
    assert forall i :: 0 <= i < |rows| ==> rs[i] == rows[i];
    assert rs[..|rs| - 1] == rows;
    if cs != [] {
      var cs' := cs[..|cs| - 1];
      assert r.category in cs <==> r.category in cs' || r.category == cs[|cs| - 1];
      assert cs[|cs| - 1] !in cs';
      SumOverSnoc(cs', rows, r);
    }
  }

  /**
   * The category totals, taken over all categories that occur, add up to
   * the overall total (in exact arithmetic).
   */
  lemma {:induction false} GroupsSumToTotal(rows: seq<Row>)
    requires AllParse(rows)
    ensures SumOver(Categories(rows), rows) == SumAll(rows)
    decreases |rows|
  {
    if rows != [] {
      var prefix := rows[..|rows| - 1];
      var r := rows[|rows| - 1];
      assert rows == prefix + [r];
      assert AllParse(prefix);
      var p := Categories(prefix);
      GroupsSumToTotal(prefix);
      CategoriesDistinct(prefix);
      SumOverSnoc(p, prefix, r);
      if r.category !in p {
        CategoriesCover(prefix);
        SumForAbsent(prefix, r.category);
        assert Categories(rows) == p + [r.category];
        assert (p + [r.category])[..|p|] == p;
      }
    }
  }

  /**
   * The categories come out in first-seen order: of two categories, the one
   * listed first first occurs in an earlier row.
   */
  lemma {:induction false} CategoriesFirstSeen(rows: seq<Row>, i: nat, j: nat)
    requires i < j < |Categories(rows)|
    ensures Categories(rows)[i] in CategorySet(rows) && Categories(rows)[j] in CategorySet(rows)
    ensures FirstIndex(rows, Categories(rows)[i]) < FirstIndex(rows, Categories(rows)[j])
    decreases |rows|
  {
    var prefix := rows[..|rows| - 1];
    var r := rows[|rows| - 1];
    assert rows == prefix + [r];
    var p := Categories(prefix);
    CategoriesCover(rows);
    CategoriesCover(prefix);
    if j < |p| {
      CategoriesFirstSeen(prefix, i, j);
      FirstIndexPrefix(prefix, r, p[i]);
      FirstIndexPrefix(prefix, r, p[j]);
    } else {
      FirstIndexPrefix(prefix, r, p[i]);
      FirstIndexOfNew(prefix, r);
    }
  }

  /** Appending a row does not move the first occurrence of a category already present. */
  lemma FirstIndexPrefix(rows: seq<Row>, r: Row, c: string)
    requires c in CategorySet(rows)
    ensures c in CategorySet(rows + [r])
    ensures FirstIndex(rows + [r], c) == FirstIndex(rows, c)
  {
    var rs := rows + [r];
    var k :| 0 <= k < |rows| && rows[k].category == c;
    assert rs[k] == rows[k];
    var b := FirstIndex(rows, c);
    assert rs[b] == rows[b];
  }

  /** A category new to the file first occurs in the row just appended. */
  lemma FirstIndexOfNew(rows: seq<Row>, r: Row)
    requires r.category !in CategorySet(rows)
    ensures r.category in CategorySet(rows + [r])
    ensures FirstIndex(rows + [r], r.category) == |rows|
  {
    var rs := rows + [r];
    assert rs[|rows|] == r;
    assert forall q :: 0 <= q < |rows| ==> rs[q] == rows[q];
  }

  /** Bars whose heights are the totals of the listed categories add up to the sum over those categories. */
  lemma {:induction false} SumOfTotals(hs: seq<real>, cs: seq<string>, rows: seq<Row>)
    requires AllParse(rows)
    requires |hs| == |cs|
    requires forall k :: 0 <= k < |cs| ==> hs[k] == SumFor(rows, cs[k])
    ensures Sum(hs) == SumOver(cs, rows)
    decreases |cs|
  {
    if cs != [] {
      SumOfTotals(hs[..|hs| - 1], cs[..|cs| - 1], rows);
    }
  }

  /** One more row: its category joins the first-seen list if new, and its amount joins its category's total. */
  lemma GroupSnoc(rows: seq<Row>, r: Row)
    requires AllParse(rows) && ParseAmount(r.amount).Some?
    ensures AllParse(rows + [r])
    ensures Categories(rows + [r])
            == if r.category in Categories(rows) then Categories(rows) else Categories(rows) + [r.category]
    ensures forall c :: SumFor(rows + [r], c)
                        == SumFor(rows, c) + (if r.category == c then Amount(r) else 0.0)
  {
    assert (rows + [r])[..|rows|] == rows;
  }
}
