/**
 * The expense file and the operations of the tracker on it. The file is an
 * object whose state is whether it exists and the rows it holds; adding an
 * expense appends to it, the reports read it in full.
 */
module Store {
  import opened Wrappers
  import opened Amounts
  import opened Ledger

  /** Why a report stopped before producing a result. */
  datatype Fault =
    | NoFile             // opening the file for reading failed: it does not exist
    | NotANumber(row: nat)  // the amount of this data row (0-based, header excluded) is not a number

  /** A report's result, or the fault that aborted it; an aborted report yields nothing partial. */
  datatype Report<T> = Done(value: T) | Failed(fault: Fault)

  /** The per-category dictionary: its entries and the order in which its keys were inserted. */
  datatype Grouping = Grouping(totals: map<string, real>, order: seq<string>)

  /** What the chart report does: says there is no data, or draws one bar per category. */
  datatype Chart = NoData | Bars(labels: seq<string>, heights: seq<real>)

  class ExpenseFile {
    /** Whether the file exists. */
    var present: bool
    /** The rows of the file, header included, in the order they were written. */
    var rows: seq<Row>

    /** A file that does not exist holds no rows. */
    ghost predicate Valid()
      reads this
    {
      present || rows == []
    }

    /** No expense file yet. */
    constructor Absent()
      ensures Valid() && !present && rows == []
    {
      present, rows := false, [];
    }

    /** An expense file left by an earlier run, whatever its contents. */
    constructor Existing(contents: seq<Row>)
      ensures Valid() && present && rows == contents
    {
      present, rows := true, contents;
    }

    /** Creates the file with its header row when it does not exist; otherwise leaves it as it is. */
    method Initialize()
      requires Valid()
      modifies this
      ensures Valid() && present
      ensures rows == if old(present) then old(rows) else [Header]
    {
      if !present {
        present, rows := true, [Header];
      }
    }

    /**
     * Records an expense: when the amount text is a number, appends one row
     * (opening for append creates a missing file, without a header);
     * otherwise reports the invalid amount and leaves the file untouched.
     */
    method AddExpense(date: string, category: string, amountText: string) returns (added: bool)
      requires Valid()
      modifies this
      ensures Valid()
      ensures added <==> ParseAmount(amountText).Some?
      ensures !added ==> present == old(present) && rows == old(rows)
      ensures added ==> present && rows == old(rows) + [Row(date, category, amountText)]
      ensures added ==> Amount(rows[|rows| - 1]) == ParseAmount(amountText).value
    {
      var amount := ParseAmount(amountText);
      if amount.None? {
        return false;
      }
      present, rows := true, rows + [Row(date, category, amountText)];
      added := true;
    }

    /** Lists every row of the file, header included, in file order. */
    method ViewExpenses() returns (r: Report<seq<Row>>)
      ensures r.Done? <==> present
      ensures r.Done? ==> r.value == rows
      ensures r.Failed? ==> r.fault == NoFile
    {
      if !present {
        return Failed(NoFile);
      }
      r := Done(rows);
    }

    /**
     * Adds up the amounts of all data rows, starting from 0, and stops at
     * the first amount that is not a number.
     */
    method ShowTotal() returns (r: Report<real>)
      ensures r.Done? <==> present && AllParse(DataRows(rows))
      ensures r.Done? ==> r.value == SumAll(DataRows(rows))
      ensures r.Failed? ==> (r.fault == NoFile <==> !present)
      ensures r.Failed? && r.fault.NotANumber? ==> FirstUnparsable(DataRows(rows), r.fault.row)
    {
      if !present {
        return Failed(NoFile);
      }
      var data := DataRows(rows);
      var total := 0.0;
      var i := 0;
      while i < |data|
        invariant 0 <= i <= |data|
        invariant AllParse(data[..i])
        invariant total == SumAll(data[..i])
      {
        var amount := ParseAmount(data[i].amount);
        if amount.None? {
          OneBadSpoilsAll(data, i);
          return Failed(NotANumber(i));
        }
        TotalStep(data, i, amount.value, total);
        total := total + amount.value;
        i := i + 1;
      }
      assert data[..i] == data;
      r := Done(total);
    }

    /**
     * Builds the per-category dictionary in one pass over the data rows:
     * a category seen for the first time is inserted with its amount, a
     * category seen before has the amount added to it. Stops at the first
     * amount that is not a number.
     */
    method ByCategory() returns (r: Report<Grouping>)
      ensures r.Done? <==> present && AllParse(DataRows(rows))
      ensures r.Done? ==> r.value.order == Categories(DataRows(rows))
      ensures r.Done? ==> forall c :: c in r.value.totals <==> c in CategorySet(DataRows(rows))
      ensures r.Done? ==> forall c :: c in r.value.totals <==> c in r.value.order
      ensures r.Done? ==> forall c :: c in r.value.totals ==> r.value.totals[c] == SumFor(DataRows(rows), c)
      ensures r.Done? ==> (r.value.totals == map[] <==> DataRows(rows) == [])
      ensures r.Failed? ==> (r.fault == NoFile <==> !present)
      ensures r.Failed? && r.fault.NotANumber? ==> FirstUnparsable(DataRows(rows), r.fault.row)
    {
      if !present {
        return Failed(NoFile);
      }
      var data := DataRows(rows);
      var totals: map<string, real> := map[];
      var order: seq<string> := [];
      var i := 0;
      while i < |data|
        invariant 0 <= i <= |data|
        invariant AllParse(data[..i])
        invariant order == Categories(data[..i])
        invariant forall c :: c in totals <==> c in order
        invariant forall c :: c in totals ==> totals[c] == SumFor(data[..i], c)
        invariant totals == map[] <==> i == 0
      {
        var category := data[i].category;
        var amount := ParseAmount(data[i].amount);
        if amount.None? {
          OneBadSpoilsAll(data, i);
          return Failed(NotANumber(i));
        }
        ghost var before, orderBefore := totals, order;
        if category in totals {
          totals := totals[category := totals[category] + amount.value];
        } else {
          totals := totals[category := amount.value];
          order := order + [category];
        }
        AccumulateStep(data, i, amount.value, before, totals, orderBefore, order);
        i := i + 1;
      }
      assert data[..i] == data;
      CategoriesCover(data);
      r := Done(Grouping(totals, order));
    }

    /**
     * The chart report: groups the data rows by category, then says there
     * is no data when the dictionary is empty, and otherwise draws one bar
     * per category, in key order, as high as that category's total.
     */
    method ShowChart() returns (r: Report<Chart>)
      ensures r.Done? <==> present && AllParse(DataRows(rows))
      ensures r.Done? ==> (r.value == NoData <==> DataRows(rows) == [])
      ensures r.Done? && r.value.Bars? ==> r.value.labels == Categories(DataRows(rows))
      ensures r.Done? && r.value.Bars? ==>
                |r.value.heights| == |r.value.labels|
                && forall k :: 0 <= k < |r.value.labels| ==>
                     r.value.heights[k] == SumFor(DataRows(rows), r.value.labels[k])
      ensures r.Done? && r.value.Bars? ==> Sum(r.value.heights) == SumAll(DataRows(rows))
      ensures r.Failed? ==> (r.fault == NoFile <==> !present)
      ensures r.Failed? && r.fault.NotANumber? ==> FirstUnparsable(DataRows(rows), r.fault.row)
    {
      var grouped := ByCategory();
      if grouped.Failed? {
        return Failed(grouped.fault);
      }
      var g := grouped.value;
      if g.totals == map[] {
        return Done(NoData);
      }
      assert g.order != [] by {
        var c :| c in g.totals;
        assert c in g.order;
      }
      var heights := seq(|g.order|, k requires 0 <= k < |g.order| => g.totals[g.order[k]]);
      SumOfTotals(heights, g.order, DataRows(rows));
      GroupsSumToTotal(DataRows(rows));
      r := Done(Bars(g.order, heights));
    }
  }

  /** One pass of the summing loop adds the amount of the row it reads to the total of the rows before it. */
  lemma TotalStep(data: seq<Row>, i: nat, v: real, total: real)
    requires i < |data|
    requires AllParse(data[..i]) && ParseAmount(data[i].amount) == Some(v)
    requires total == SumAll(data[..i])
    ensures AllParse(data[..i + 1])
    ensures total + v == SumAll(data[..i + 1])
  {
    assert data[..i + 1][..i] == data[..i];
  }

  /**
   * One pass of the accumulation loop, reading data row `i`, keeps every
   * entry of the dictionary equal to its category's total over the rows
   * read so far, and the key order equal to the first-seen order.
   */
  lemma AccumulateStep(data: seq<Row>, i: nat, v: real, before: map<string, real>, after: map<string, real>,
                       orderBefore: seq<string>, orderAfter: seq<string>)
    requires i < |data|
    requires AllParse(data[..i]) && ParseAmount(data[i].amount) == Some(v)
    requires orderBefore == Categories(data[..i])
    requires forall c :: c in before <==> c in orderBefore
    requires forall c :: c in before ==> before[c] == SumFor(data[..i], c)
    requires after == if data[i].category in before then before[data[i].category := before[data[i].category] + v]
                      else before[data[i].category := v]
    requires orderAfter == if data[i].category in before then orderBefore else orderBefore + [data[i].category]
    ensures AllParse(data[..i + 1])
    ensures orderAfter == Categories(data[..i + 1])
    ensures forall c :: c in after <==> c in orderAfter
    ensures forall c :: c in after ==> after[c] == SumFor(data[..i + 1], c)
    ensures after != map[]
  {
    var seen, r := data[..i], data[i];
    assert data[..i + 1] == seen + [r];
    GroupSnoc(seen, r);
    if r.category !in before {
      CategoriesCover(seen);
      SumForAbsent(seen, r.category);
    }
    assert r.category in after;
  }
}
