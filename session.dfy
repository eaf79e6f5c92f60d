/**
 * A run of the program: the file is initialised at start-up, then the user
 * adds expenses one after another and finally asks for a report. Only the
 * order of operations is modelled here; the menu and its prompts are not.
 */
module Session {
  import opened Wrappers
  import opened Amounts
  import opened Ledger
  import opened Store

  /** One "Add Expense" request: the clock's date and what the user typed. */
  datatype Entry = Entry(date: string, category: string, amountText: string)

  /** The rows a sequence of add requests appends: one per request whose amount is a number, in order. */
  function Accepted(entries: seq<Entry>): (rs: seq<Row>)
    ensures |rs| <= |entries|
  {
    if entries == [] then []
    else
      var e := entries[|entries| - 1];
      Accepted(entries[..|entries| - 1])
      + (if ParseAmount(e.amountText).Some? then [Row(e.date, e.category, e.amountText)] else [])
  }

  /**
   * One add request in a run: the file's rows after it are the rows of the
   * file as started followed by what the requests so far, this one
   * included, appended.
   */
  lemma RecordStep(start: seq<Row>, entries: seq<Entry>, i: nat, added: bool, before: seq<Row>, after: seq<Row>)
    requires i < |entries|
    requires added <==> ParseAmount(entries[i].amountText).Some?
    requires before == start + Accepted(entries[..i])
    requires after == if added then before + [Row(entries[i].date, entries[i].category, entries[i].amountText)] else before
    ensures after == start + Accepted(entries[..i + 1])
  {
    assert entries[..i + 1][..i] == entries[..i];
  }

  /** When every amount is a number, each request appends exactly its own row. */
  lemma {:induction false} AcceptedAllValid(entries: seq<Entry>)
    requires forall i :: 0 <= i < |entries| ==> ParseAmount(entries[i].amountText).Some?
    ensures |Accepted(entries)| == |entries|
    ensures forall i :: 0 <= i < |entries| ==>
              Accepted(entries)[i] == Row(entries[i].date, entries[i].category, entries[i].amountText)
    decreases |entries|
  {
    if entries != [] {
      var prefix := entries[..|entries| - 1];
      var e := entries[|entries| - 1];
      assert forall i :: 0 <= i < |prefix| ==> prefix[i] == entries[i];
      AcceptedAllValid(prefix);
      assert ParseAmount(e.amountText).Some?;
      assert Accepted(entries) == Accepted(prefix) + [Row(e.date, e.category, e.amountText)];
    }
  }

  /** Every row the program itself appends holds a number, so the reports never fail on it. */
  lemma {:induction false} AcceptedParse(entries: seq<Entry>)
    ensures AllParse(Accepted(entries))
    decreases |entries|
  {
    if entries != [] {
      var prefix := entries[..|entries| - 1];
      var e := entries[|entries| - 1];
      AcceptedParse(prefix);
      if ParseAmount(e.amountText).Some? {
        var rs := Accepted(prefix) + [Row(e.date, e.category, e.amountText)];
        assert rs[..|rs| - 1] == Accepted(prefix);
        assert rs[|rs| - 1].amount == e.amountText;
      } else {
        assert Accepted(entries) == Accepted(prefix) + [] == Accepted(prefix);
      }
    }
  }

  /**
   * Start-up initialisation on the file as found (None when there is none),
   * then the given add requests: the file ends up as it was (or as a lone
   * header) followed by the accepted rows.
   */
  method Record(existing: Option<seq<Row>>, entries: seq<Entry>) returns (file: ExpenseFile)
    ensures file.Valid() && file.present
    ensures file.rows == (if existing.None? then [Header] else existing.value) + Accepted(entries)
  {
    if existing.None? {
      file := new ExpenseFile.Absent();
    } else {
      file := new ExpenseFile.Existing(existing.value);
    }
    file.Initialize();
    var start := file.rows;
    var i := 0;
    while i < |entries|
      invariant 0 <= i <= |entries|
      invariant file.Valid() && file.present
      invariant file.rows == start + Accepted(entries[..i])
    {
      var e := entries[i];
      ghost var before := file.rows;
      var added := file.AddExpense(e.date, e.category, e.amountText);
      RecordStep(start, entries, i, added, before, file.rows);
      i := i + 1;
    }
    assert entries[..i] == entries;
  }

  /** Starting without a file, listing after N valid additions gives the header and then the N rows in order. */
  method RecordThenList(entries: seq<Entry>) returns (listing: Report<seq<Row>>)
    ensures listing == Done([Header] + Accepted(entries))
  {
    var file := Record(None, entries);
    listing := file.ViewExpenses();
  }

  /** Starting without a file, the total after the additions is the sum of the accepted amounts. */
  method RecordThenTotal(entries: seq<Entry>) returns (total: Report<real>)
    ensures AllParse(Accepted(entries))
    ensures total == Done(SumAll(Accepted(entries)))
  {
    var file := Record(None, entries);
    AcceptedParse(entries);
    assert DataRows(file.rows) == Accepted(entries);
    total := file.ShowTotal();
  }

  /** Three expenses of 10, 20.5 and 5.5 total 36. */
  lemma ExampleTotal()
    ensures AllParse([Row("d", "Food", "10.0"), Row("d", "Travel", "20.5"), Row("d", "Food", "5.5")])
    ensures SumAll([Row("d", "Food", "10.0"), Row("d", "Travel", "20.5"), Row("d", "Food", "5.5")]) == 36.0
  {
    assert "10.0" == ShowNatural(10) + "." + [DigitChar(0)];
    ParseTenths(10, 0);
    assert "20.5" == ShowNatural(20) + "." + [DigitChar(5)];
    ParseTenths(20, 5);
    assert "5.5" == ShowNatural(5) + "." + [DigitChar(5)];
    ParseTenths(5, 5);
    SumThree(Row("d", "Food", "10.0"), Row("d", "Travel", "20.5"), Row("d", "Food", "5.5"));
  }

  /** Food 10, Travel 5, Food 2.5 group to Food 12.5 and Travel 5, in that key order. */
  lemma ExampleByCategory()
    ensures Categories([Row("d", "Food", "10"), Row("d", "Travel", "5"), Row("d", "Food", "2.5")]) == ["Food", "Travel"]
    ensures AllParse([Row("d", "Food", "10"), Row("d", "Travel", "5"), Row("d", "Food", "2.5")])
    ensures SumFor([Row("d", "Food", "10"), Row("d", "Travel", "5"), Row("d", "Food", "2.5")], "Food") == 12.5
    ensures SumFor([Row("d", "Food", "10"), Row("d", "Travel", "5"), Row("d", "Food", "2.5")], "Travel") == 5.0
  {
    assert "10" == ShowNatural(10);
    ParseShowNatural(10);
    assert "5" == ShowNatural(5);
    ParseShowNatural(5);
    assert "2.5" == ShowNatural(2) + "." + [DigitChar(5)];
    ParseTenths(2, 5);
    CategoriesThree(Row("d", "Food", "10"), Row("d", "Travel", "5"), Row("d", "Food", "2.5"));
    SumForThree(Row("d", "Food", "10"), Row("d", "Travel", "5"), Row("d", "Food", "2.5"), "Food");
    SumForThree(Row("d", "Food", "10"), Row("d", "Travel", "5"), Row("d", "Food", "2.5"), "Travel");
  }

  /** The total over three rows, unfolded one row at a time. */
  lemma SumThree(a: Row, b: Row, c: Row)
    requires ParseAmount(a.amount).Some? && ParseAmount(b.amount).Some? && ParseAmount(c.amount).Some?
    ensures AllParse([a, b, c])
    ensures SumAll([a, b, c]) == Amount(a) + Amount(b) + Amount(c)
  {
    assert [a][..0] == [];
    assert AllParse([a]) && SumAll([a]) == Amount(a);
    assert [a, b][..1] == [a];
    assert AllParse([a, b]) && SumAll([a, b]) == Amount(a) + Amount(b);
    assert [a, b, c][..2] == [a, b];
  }

  /** The first-seen categories of three rows, unfolded one row at a time. */
  lemma CategoriesThree(a: Row, b: Row, c: Row)
    ensures Categories([a, b]) == if b.category == a.category then [a.category] else [a.category, b.category]
    ensures Categories([a, b, c])
            == Categories([a, b]) + (if c.category in Categories([a, b]) then [] else [c.category])
  {
    assert [a, b][..1] == [a] && [a][..0] == [];
    assert [a, b, c][..2] == [a, b];
  }

  /** One category's total over three rows, unfolded one row at a time. */
  lemma SumForThree(a: Row, b: Row, c: Row, k: string)
    requires ParseAmount(a.amount).Some? && ParseAmount(b.amount).Some? && ParseAmount(c.amount).Some?
    ensures AllParse([a, b, c])
    ensures SumFor([a, b, c], k)
            == (if a.category == k then Amount(a) else 0.0)
               + (if b.category == k then Amount(b) else 0.0)
               + (if c.category == k then Amount(c) else 0.0)
  {
    assert [] + [a] == [a];
    GroupSnoc([], a);
    assert [a] + [b] == [a, b];
    GroupSnoc([a], b);
    assert [a, b] + [c] == [a, b, c];
    GroupSnoc([a, b], c);
  }
}
