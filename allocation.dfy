/** "Calculate split": the guard, the charges, the grand total and the two
    ways of dividing it (equal split when no item has a value, otherwise in
    proportion to each name's item subtotal). All amounts are exact reals
    taken before the two-decimal rounding of the displayed table. */
module Allocation {
  import opened Sums
  import opened Charges
  import opened Participants
  import opened Subtotals

  /** The inputs of the "Bill details" section. */
  datatype Bill = Bill(totalBill: real, tax: Charge, service: Charge)

  /** One row of the results table: Person, Subtotal, Tax Share,
      Service Share, Total Due. */
  datatype Row = Row(person: string, subtotal: real, taxShare: real, serviceShare: real, totalDue: real)

  /** The results table with the resolved charges and the grand total;
      `equalSplit` is set when the page warns that it fell back to an equal
      split. */
  datatype Breakdown = Breakdown(
    rows: seq<Row>,
    computedTax: real,
    computedService: real,
    grandTotal: real,
    equalSplit: bool)

  /** The two error messages shown instead of a result. */
  datatype CalcError = NonPositiveBill | NoParticipants

  datatype Outcome = Computed(breakdown: Breakdown) | Rejected(error: CalcError)

  /** A row of the equal split: subtotal and total due are both the equal
      share of the grand total. */
  function EqualRow(name: string, tax: real, service: real, grand: real, n: nat): Row
    requires n > 0
  {
    var k := n as real;
    Row(name, grand / k, tax / k, service / k, grand / k)
  }

  /** One equal-split row per roster entry, in roster order. */
  function EqualRows(roster: seq<Participant>, tax: real, service: real, grand: real): seq<Row>
    requires roster != []
  {
    seq(|roster|, i requires 0 <= i < |roster| => EqualRow(roster[i].name, tax, service, grand, |roster|))
  }

  /** `share_ratio = subtotal / total_items_value`. */
  function ShareRatio(subtotal: real, totalItems: real): real
    requires totalItems != 0.0
  {
    subtotal / totalItems
  }

  /** A row of the itemized split: the name's own subtotal plus its
      proportional share of tax and service. */
  function ItemizedRow(e: Entry, totalItems: real, tax: real, service: real): Row
    requires totalItems != 0.0
  {
    var ratio := ShareRatio(e.subtotal, totalItems);
    var taxShare := ratio * tax;
    var serviceShare := ratio * service;
    Row(e.name, e.subtotal, taxShare, serviceShare, e.subtotal + taxShare + serviceShare)
  }

  /** One itemized row per dictionary entry, in dictionary order. */
  function ItemizedRows(d: seq<Entry>, totalItems: real, tax: real, service: real): seq<Row>
    requires totalItems != 0.0
  {
    seq(|d|, i requires 0 <= i < |d| => ItemizedRow(d[i], totalItems, tax, service))
  }

  /** What a click on "Calculate split" produces for the current inputs. */
  function Split(bill: Bill, roster: seq<Participant>): Outcome {
    if bill.totalBill <= 0.0 then Rejected(NonPositiveBill)
    else if roster == [] then Rejected(NoParticipants)
    else
      var d := Aggregate(roster);
      var totalItems := TotalItems(d);
      var tax := Resolve(bill.tax, bill.totalBill);
      var service := Resolve(bill.service, bill.totalBill);
      var grand := GrandTotal(bill.totalBill, tax, service);
      if totalItems == 0.0 then
        Computed(Breakdown(EqualRows(roster, tax, service, grand), tax, service, grand, true))
      else
        Computed(Breakdown(ItemizedRows(d, totalItems, tax, service), tax, service, grand, false))
  }

  /** The fallback loop: one equal-split row per roster entry. */
  method BuildEqualRows(roster: seq<Participant>, tax: real, service: real, grand: real)
      returns (rows: seq<Row>)
    requires roster != []
    ensures rows == EqualRows(roster, tax, service, grand)
  {
    rows := [];
    var n := |roster|;
    var i := 0;
    while i < n
      invariant 0 <= i <= n
      invariant rows == EqualRows(roster, tax, service, grand)[..i]
    {
      rows := rows + [EqualRow(roster[i].name, tax, service, grand, n)];
      i := i + 1;
    }
  }

  /** The itemized loop over `subtotals.items()`: one row per entry. */
  method BuildItemizedRows(subtotals: seq<Entry>, totalItems: real, tax: real, service: real)
      returns (rows: seq<Row>)
    requires totalItems != 0.0
    ensures rows == ItemizedRows(subtotals, totalItems, tax, service)
  {
    ghost var spec := ItemizedRows(subtotals, totalItems, tax, service);
    rows := [];
    var i := 0;
    while i < |subtotals|
      invariant 0 <= i <= |subtotals|
      invariant rows == spec[..i]
    {
      var e := subtotals[i];
      var ratio := e.subtotal / totalItems;
      var taxShare := ratio * tax;
      var serviceShare := ratio * service;
      assert spec[i] == Row(e.name, e.subtotal, taxShare, serviceShare, e.subtotal + taxShare + serviceShare);
      rows := rows + [Row(e.name, e.subtotal, taxShare, serviceShare, e.subtotal + taxShare + serviceShare)];
      assert spec[..i + 1] == spec[..i] + [spec[i]];
      i := i + 1;
    }
  }

  /** The button handler: the guard, the subtotal loop, the charges, then
      one of the two row-building loops. */
  method CalculateSplit(bill: Bill, roster: seq<Participant>) returns (out: Outcome)
    ensures out == Split(bill, roster)
  {
    if bill.totalBill <= 0.0 {
      return Rejected(NonPositiveBill);
    }
    if roster == [] {
      return Rejected(NoParticipants);
    }
    var subtotals := AggregateSubtotals(roster);
    var totalItems := TotalItems(subtotals);
    var tax := Resolve(bill.tax, bill.totalBill);
    var service := Resolve(bill.service, bill.totalBill);
    var grand := GrandTotal(bill.totalBill, tax, service);
    if totalItems == 0.0 {
      var rows := BuildEqualRows(roster, tax, service, grand);
      out := Computed(Breakdown(rows, tax, service, grand, true));
    } else {
      var rows := BuildItemizedRows(subtotals, totalItems, tax, service);
      out := Computed(Breakdown(rows, tax, service, grand, false));
    }
  }

  function RowSubtotals(rows: seq<Row>): seq<real> {
    seq(|rows|, i requires 0 <= i < |rows| => rows[i].subtotal)
  }

  function TaxShares(rows: seq<Row>): seq<real> {
    seq(|rows|, i requires 0 <= i < |rows| => rows[i].taxShare)
  }

  function ServiceShares(rows: seq<Row>): seq<real> {
    seq(|rows|, i requires 0 <= i < |rows| => rows[i].serviceShare)
  }

  function Dues(rows: seq<Row>): seq<real> {
    seq(|rows|, i requires 0 <= i < |rows| => rows[i].totalDue)
  }

  /** Nothing is computed for a bill that is not positive or an empty
      roster, and the bill check comes first. */
  lemma SplitGuard(bill: Bill, roster: seq<Participant>)
    ensures Split(bill, roster).Rejected? <==> bill.totalBill <= 0.0 || roster == []
    ensures Split(bill, roster) == Rejected(NonPositiveBill) <==> bill.totalBill <= 0.0
  {
  }

  /** The charges are resolved against the bill and the grand total is the
      bill plus both of them. */
  lemma SplitTotals(bill: Bill, roster: seq<Participant>)
    requires Split(bill, roster).Computed?
    ensures var b := Split(bill, roster).breakdown;
      && b.computedTax == Resolve(bill.tax, bill.totalBill)
      && b.computedService == Resolve(bill.service, bill.totalBill)
      && b.grandTotal == bill.totalBill + b.computedTax + b.computedService
  {
  }

  /** The equal split is taken exactly when the items total is zero. With
      prices from the form that means no name kept a non-zero subtotal; in
      particular it is taken when nobody entered an item. */
  lemma EqualSplitWhen(bill: Bill, roster: seq<Participant>)
    requires bill.totalBill > 0.0 && roster != []
    requires forall i :: 0 <= i < |roster| ==> PricesNonNegative(roster[i])
    ensures Split(bill, roster).Computed?
    ensures Split(bill, roster).breakdown.equalSplit <==>
              forall i :: 0 <= i < |Aggregate(roster)| ==> Aggregate(roster)[i].subtotal == 0.0
    ensures (forall i :: 0 <= i < |roster| ==> roster[i].items == []) ==>
              Split(bill, roster).breakdown.equalSplit
  {
    TotalItemsZero(roster);
    if forall i :: 0 <= i < |roster| ==> roster[i].items == [] {
      NoItemsTotalZero(roster);
    }
  }

  /** `n` equal shares of an amount add back up to the amount. */
  lemma {:induction false} EqualRowsAddUp(roster: seq<Participant>, tax: real, service: real, grand: real)
    requires roster != []
    ensures Sum(Dues(EqualRows(roster, tax, service, grand))) == grand
    ensures Sum(TaxShares(EqualRows(roster, tax, service, grand))) == tax
    ensures Sum(ServiceShares(EqualRows(roster, tax, service, grand))) == service
  {
    var rows := EqualRows(roster, tax, service, grand);
    var k := |roster| as real;
    SumConstant(Dues(rows), grand / k);
    SumConstant(TaxShares(rows), tax / k);
    SumConstant(ServiceShares(rows), service / k);
    SharesAddUp(grand, k);
    SharesAddUp(tax, k);
    SharesAddUp(service, k);
  }

  lemma SharesAddUp(x: real, k: real)
    requires k > 0.0
    ensures k * (x / k) == x
  {
  }

  /** The equal split gives one row per roster entry (duplicates included),
      in roster order, each owing the same share of the grand total; the
      dues add up to the grand total and the tax and service shares to the
      resolved charges. */
  lemma EqualSplitRows(bill: Bill, roster: seq<Participant>)
    requires bill.totalBill > 0.0 && roster != []
    requires TotalItems(Aggregate(roster)) == 0.0
    ensures Split(bill, roster).Computed?
    ensures var b := Split(bill, roster).breakdown;
      && b.equalSplit
      && |b.rows| == |roster|
      && (forall i :: 0 <= i < |roster| ==>
            && b.rows[i].person == roster[i].name
            && b.rows[i].totalDue == b.grandTotal / |roster| as real
            && b.rows[i].subtotal == b.grandTotal / |roster| as real
            && b.rows[i].taxShare == b.computedTax / |roster| as real
            && b.rows[i].serviceShare == b.computedService / |roster| as real)
      && Sum(Dues(b.rows)) == b.grandTotal
      && Sum(TaxShares(b.rows)) == b.computedTax
      && Sum(ServiceShares(b.rows)) == b.computedService
  {
    var b := Split(bill, roster).breakdown;
    assert b.rows == EqualRows(roster, b.computedTax, b.computedService, b.grandTotal);
    EqualRowsAddUp(roster, b.computedTax, b.computedService, b.grandTotal);
  }

  /** In the equal split the Subtotal column already holds the whole share,
      so a row's subtotal plus its tax and service shares equals its total
      due only when there is no tax and no service. */
  lemma EqualSplitCountsChargesTwice(name: string, tax: real, service: real, grand: real, n: nat)
    requires n > 0
    ensures var row := EqualRow(name, tax, service, grand, n);
      row.subtotal + row.taxShare + row.serviceShare == row.totalDue <==> tax + service == 0.0
  {
    var k := n as real;
    SharesAddUp(tax, k);
    SharesAddUp(service, k);
    assert k * (tax / k + service / k) == tax + service;
  }

  /** The itemized split has one row per distinct name, in the order the
      names first appear, each carrying the subtotal of the last participant
      of that name and owing that subtotal plus its tax and service shares. */
  lemma ItemizedRowsByName(bill: Bill, roster: seq<Participant>)
    requires bill.totalBill > 0.0 && roster != []
    requires TotalItems(Aggregate(roster)) != 0.0
    ensures Split(bill, roster).Computed?
    ensures var b := Split(bill, roster).breakdown;
      var d := Aggregate(roster);
      && !b.equalSplit
      && |b.rows| == |d|
      && (forall i :: 0 <= i < |d| ==>
            && b.rows[i].person == d[i].name
            && b.rows[i].subtotal == d[i].subtotal
            && b.rows[i].totalDue == b.rows[i].subtotal + b.rows[i].taxShare + b.rows[i].serviceShare)
      && (forall i, j :: 0 <= i < j < |b.rows| ==> b.rows[i].person != b.rows[j].person)
      && (forall n :: n in RosterNames(roster) <==> exists i :: 0 <= i < |b.rows| && b.rows[i].person == n)
  {
    var b := Split(bill, roster).breakdown;
    var d := Aggregate(roster);
    assert b.rows == ItemizedRows(d, TotalItems(d), b.computedTax, b.computedService);
    ItemizedRowsNames(roster, TotalItems(d), b.computedTax, b.computedService);
  }

  /** The itemized rows of the aggregated dictionary carry its names, which
      are distinct and are exactly the roster's names. */
  lemma ItemizedRowsNames(roster: seq<Participant>, total: real, tax: real, service: real)
    requires total != 0.0
    ensures var d := Aggregate(roster);
      var rows := ItemizedRows(d, total, tax, service);
      && |rows| == |d|
      && (forall i :: 0 <= i < |d| ==>
            && rows[i].person == d[i].name
            && rows[i].subtotal == d[i].subtotal
            && rows[i].totalDue == rows[i].subtotal + rows[i].taxShare + rows[i].serviceShare)
      && (forall i, j :: 0 <= i < j < |rows| ==> rows[i].person != rows[j].person)
      && (forall n :: n in RosterNames(roster) <==> exists i :: 0 <= i < |rows| && rows[i].person == n)
  {
    var d := Aggregate(roster);
    var rows := ItemizedRows(d, total, tax, service);
    AggregateKeys(roster);
    assert forall i :: 0 <= i < |d| ==> Names(d)[i] == rows[i].person;
    forall n ensures n in RosterNames(roster) <==> exists i :: 0 <= i < |rows| && rows[i].person == n {
      if n in Names(d) {
        var i :| 0 <= i < |d| && Names(d)[i] == n;
        assert rows[i].person == n;
      }
    }
  }

  /** The share ratio of every dictionary entry, in dictionary order. */
  function Ratios(d: seq<Entry>, total: real): seq<real>
    requires total != 0.0
  {
    seq(|d|, i requires 0 <= i < |d| => ShareRatio(d[i].subtotal, total))
  }

  /** For non-negative subtotals with a non-zero total, every share ratio
      lies in [0, 1] and the ratios add up to 1. */
  lemma ShareRatiosAddUp(d: seq<Entry>, total: real)
    requires AllNonNegative(EntrySubtotals(d))
    requires total == TotalItems(d) && total != 0.0
    ensures forall i :: 0 <= i < |d| ==> 0.0 <= ShareRatio(d[i].subtotal, total) <= 1.0
    ensures Sum(Ratios(d, total)) == 1.0
  {
    var ratios := Ratios(d, total);
    FractionsAddUp(EntrySubtotals(d), total, ratios);
    assert forall i :: 0 <= i < |d| ==> ratios[i] == ShareRatio(d[i].subtotal, total);
  }

  /** Because the ratios add up to 1, the tax shares add up to the tax, the
      service shares to the service, and all the dues to the items total plus
      both charges. */
  lemma ItemizedRowsAddUp(d: seq<Entry>, total: real, tax: real, service: real)
    requires AllNonNegative(EntrySubtotals(d))
    requires total == TotalItems(d) && total != 0.0
    ensures var rows := ItemizedRows(d, total, tax, service);
      && Sum(RowSubtotals(rows)) == total
      && Sum(TaxShares(rows)) == tax
      && Sum(ServiceShares(rows)) == service
      && Sum(Dues(rows)) == total + tax + service
  {
    ItemizedChargesAddUp(d, total, tax, service);
    ItemizedDuesAddUp(d, total, tax, service);
  }

  lemma ItemizedChargesAddUp(d: seq<Entry>, total: real, tax: real, service: real)
    requires AllNonNegative(EntrySubtotals(d))
    requires total == TotalItems(d) && total != 0.0
    ensures Sum(TaxShares(ItemizedRows(d, total, tax, service))) == tax
    ensures Sum(ServiceShares(ItemizedRows(d, total, tax, service))) == service
  {
    var rows := ItemizedRows(d, total, tax, service);
    var ratios := Ratios(d, total);
    ItemizedColumns(d, total, tax, service);
    ShareRatiosAddUp(d, total);
    ShareOut(ratios, tax);
    ShareOut(ratios, service);
  }

  lemma ItemizedDuesAddUp(d: seq<Entry>, total: real, tax: real, service: real)
    requires total == TotalItems(d) && total != 0.0
    ensures var rows := ItemizedRows(d, total, tax, service);
      && Sum(RowSubtotals(rows)) == total
      && Sum(Dues(rows)) == total + Sum(TaxShares(rows)) + Sum(ServiceShares(rows))
  {
    var rows := ItemizedRows(d, total, tax, service);
    ItemizedColumns(d, total, tax, service);
    SumOfThree(RowSubtotals(rows), TaxShares(rows), ServiceShares(rows), Dues(rows));
  }

  /** Column by column, an itemized row is the entry's subtotal, its ratio
      times the tax, its ratio times the service, and their sum. */
  lemma ItemizedColumns(d: seq<Entry>, total: real, tax: real, service: real)
    requires total != 0.0
    ensures var rows := ItemizedRows(d, total, tax, service);
      && RowSubtotals(rows) == EntrySubtotals(d)
      && TaxShares(rows) == Scale(Ratios(d, total), tax)
      && ServiceShares(rows) == Scale(Ratios(d, total), service)
      && |Dues(rows)| == |d|
      && (forall i :: 0 <= i < |d| ==>
            Dues(rows)[i] == RowSubtotals(rows)[i] + (TaxShares(rows)[i] + ServiceShares(rows)[i]))
  {
    var rows := ItemizedRows(d, total, tax, service);
    var ratios := Ratios(d, total);
    assert forall i :: 0 <= i < |d| ==> TaxShares(rows)[i] == Scale(ratios, tax)[i];
    assert forall i :: 0 <= i < |d| ==> ServiceShares(rows)[i] == Scale(ratios, service)[i];
  }

  /** With prices from the form, the itemized split keeps every share ratio
      in [0, 1] with the ratios adding up to 1, and so hands out exactly the
      tax, exactly the service, and in all the items total plus both charges. */
  lemma ItemizedConservation(bill: Bill, roster: seq<Participant>)
    requires bill.totalBill > 0.0 && roster != []
    requires forall i :: 0 <= i < |roster| ==> PricesNonNegative(roster[i])
    requires TotalItems(Aggregate(roster)) != 0.0
    ensures Split(bill, roster).Computed?
    ensures var b := Split(bill, roster).breakdown;
      var d := Aggregate(roster);
      var total := TotalItems(d);
      && (forall i :: 0 <= i < |d| ==> 0.0 <= ShareRatio(d[i].subtotal, total) <= 1.0)
      && Sum(Ratios(d, total)) == 1.0
      && Sum(RowSubtotals(b.rows)) == total
      && Sum(TaxShares(b.rows)) == b.computedTax
      && Sum(ServiceShares(b.rows)) == b.computedService
      && Sum(Dues(b.rows)) == total + b.computedTax + b.computedService
  {
    var b := Split(bill, roster).breakdown;
    var d := Aggregate(roster);
    AggregateNonNegative(roster);
    assert b.rows == ItemizedRows(d, TotalItems(d), b.computedTax, b.computedService);
    ShareRatiosAddUp(d, TotalItems(d));
    ItemizedRowsAddUp(d, TotalItems(d), b.computedTax, b.computedService);
  }

  /** For any roster the forms can build (the roster's `Valid()`), both
      ways of splitting hand out exactly the tax and exactly the service;
      the dues add up to the grand total in the equal split and to the items
      total plus both charges in the itemized split. */
  lemma SplitConservesCharges(bill: Bill, roster: seq<Participant>)
    requires AllWellFormed(roster)
    ensures var out := Split(bill, roster);
      out.Computed? ==>
        && Sum(TaxShares(out.breakdown.rows)) == out.breakdown.computedTax
        && Sum(ServiceShares(out.breakdown.rows)) == out.breakdown.computedService
        && Sum(Dues(out.breakdown.rows)) ==
             if out.breakdown.equalSplit then out.breakdown.grandTotal
             else TotalItems(Aggregate(roster)) + out.breakdown.computedTax + out.breakdown.computedService
  {
    if bill.totalBill > 0.0 && roster != [] {
      if TotalItems(Aggregate(roster)) == 0.0 {
        EqualSplitRows(bill, roster);
      } else {
        FormPricesNonNegative(roster);
        ItemizedConservation(bill, roster);
      }
    }
  }

  /** The button handler run on the roster the page keeps: it computes
      `Split` of the current roster and, since the forms only store valid
      participants, hands out exactly the tax and the service. */
  method CalculateRosterSplit(bill: Bill, roster: Roster) returns (out: Outcome)
    requires roster.Valid()
    ensures out == Split(bill, roster.participants)
    ensures out.Computed? ==>
      && Sum(TaxShares(out.breakdown.rows)) == out.breakdown.computedTax
      && Sum(ServiceShares(out.breakdown.rows)) == out.breakdown.computedService
  {
    out := CalculateSplit(bill, roster.participants);
    SplitConservesCharges(bill, roster.participants);
  }

  /** A name whose stored subtotal is zero owes nothing at all in the
      itemized split. */
  lemma ItemizedZeroSubtotal(bill: Bill, roster: seq<Participant>, i: nat)
    requires bill.totalBill > 0.0 && roster != []
    requires TotalItems(Aggregate(roster)) != 0.0
    requires i < |Aggregate(roster)| && Aggregate(roster)[i].subtotal == 0.0
    ensures var row := Split(bill, roster).breakdown.rows[i];
      row.taxShare == 0.0 && row.serviceShare == 0.0 && row.totalDue == 0.0
  {
    var b := Split(bill, roster).breakdown;
    var d := Aggregate(roster);
    assert b.rows == ItemizedRows(d, TotalItems(d), b.computedTax, b.computedService);
    ZeroSubtotalRow(d[i], TotalItems(d), b.computedTax, b.computedService);
  }

  lemma ZeroSubtotalRow(e: Entry, total: real, tax: real, service: real)
    requires total != 0.0 && e.subtotal == 0.0
    ensures ItemizedRow(e, total, tax, service) == Row(e.name, 0.0, 0.0, 0.0, 0.0)
  {
    assert ShareRatio(e.subtotal, total) == 0.0;
  }

  /** A single participant with items owes their item subtotal plus all of
      the tax and service. That is the grand total only when the items add up
      to the bill amount: the itemized split divides the items, not the
      bill. */
  lemma SingleParticipantItemized(bill: Bill, p: Participant)
    requires bill.totalBill > 0.0
    requires ItemSubtotal(p) != 0.0
    ensures Split(bill, [p]).Computed?
    ensures var b := Split(bill, [p]).breakdown;
      && |b.rows| == 1
      && b.rows[0].taxShare == b.computedTax
      && b.rows[0].serviceShare == b.computedService
      && b.rows[0].totalDue == b.grandTotal - bill.totalBill + ItemSubtotal(p)
      && (b.rows[0].totalDue == b.grandTotal <==> ItemSubtotal(p) == bill.totalBill)
  {
    var s := ItemSubtotal(p);
    assert [p][..0] == [];
    assert Aggregate([p]) == Put(Aggregate([]), p.name, s);
    var d := Aggregate([p]);
    assert d == [Entry(p.name, s)];
    assert EntrySubtotals(d) == [s];
    SumAppend([], s);
    assert TotalItems(d) == s;
    var b := Split(bill, [p]).breakdown;
    assert b.rows == ItemizedRows(d, s, b.computedTax, b.computedService);
    SingleItemizedRow(Entry(p.name, s), b.computedTax, b.computedService);
  }

  /** A lone entry's share ratio is 1: its row carries the whole tax and
      the whole service. */
  lemma SingleItemizedRow(e: Entry, tax: real, service: real)
    requires e.subtotal != 0.0
    ensures ItemizedRows([e], e.subtotal, tax, service) ==
              [Row(e.name, e.subtotal, tax, service, e.subtotal + tax + service)]
  {
    var x := e.subtotal;
    assert x / x == 1.0;
    var row := Row(e.name, x, tax, service, x + tax + service);
    assert ItemizedRow(e, x, tax, service) == row;
    assert ItemizedRows([e], x, tax, service)[0] == row;
  }

  /** Bill 100, tax 10 %, service 12 %, Alice with a 60 pizza and Bob with
      a 40 pasta. */
  lemma ScenarioProportional()
    ensures var alice := Participant("Alice", [Item("Pizza", 60.0)]);
      var bob := Participant("Bob", [Item("Pasta", 40.0)]);
      Split(Bill(100.0, Percent(10.0), Percent(12.0)), [alice, bob]) ==
        Computed(Breakdown(
          [Row("Alice", 60.0, 6.0, 7.2, 73.2), Row("Bob", 40.0, 4.0, 4.8, 48.8)],
          10.0, 12.0, 122.0, false))
  {
    var alice := Participant("Alice", [Item("Pizza", 60.0)]);
    var bob := Participant("Bob", [Item("Pasta", 40.0)]);
    var d := [Entry("Alice", 60.0), Entry("Bob", 40.0)];
    ScenarioProportionalSubtotals(alice, bob);
    assert Resolve(Percent(10.0), 100.0) == 10.0;
    assert Resolve(Percent(12.0), 100.0) == 12.0;
    ScenarioProportionalRows(d);
  }

  lemma ScenarioProportionalSubtotals(alice: Participant, bob: Participant)
    requires alice == Participant("Alice", [Item("Pizza", 60.0)])
    requires bob == Participant("Bob", [Item("Pasta", 40.0)])
    ensures Aggregate([alice, bob]) == [Entry("Alice", 60.0), Entry("Bob", 40.0)]
    ensures TotalItems([Entry("Alice", 60.0), Entry("Bob", 40.0)]) == 100.0
  {
    var roster := [alice, bob];
    assert roster[..1] == [alice];
    assert [alice][..0] == [];
    assert Prices(alice.items) == [60.0];
    assert Prices(bob.items) == [40.0];
    SumAppend([], 60.0);
    SumAppend([], 40.0);
    assert Aggregate([alice]) == [Entry("Alice", 60.0)];
    assert EntrySubtotals([Entry("Alice", 60.0), Entry("Bob", 40.0)]) == [60.0] + [40.0];
    SumAppend([60.0], 40.0);
  }

  lemma ScenarioProportionalRows(d: seq<Entry>)
    requires d == [Entry("Alice", 60.0), Entry("Bob", 40.0)]
    ensures ItemizedRows(d, 100.0, 10.0, 12.0) ==
      [Row("Alice", 60.0, 6.0, 7.2, 73.2), Row("Bob", 40.0, 4.0, 4.8, 48.8)]
  {
    assert ItemizedRow(d[0], 100.0, 10.0, 12.0) == Row("Alice", 60.0, 6.0, 7.2, 73.2);
    assert ItemizedRow(d[1], 100.0, 10.0, 12.0) == Row("Bob", 40.0, 4.0, 4.8, 48.8);
  }

  /** Bill 50, fixed tax 5, fixed service 0, two participants without items:
      equal split of 55, 27.50 each. */
  lemma ScenarioEqualSplit()
    ensures var roster := [Participant("Alice", []), Participant("Bob", [])];
      Split(Bill(50.0, Fixed(5.0), Fixed(0.0)), roster) ==
        Computed(Breakdown(
          [Row("Alice", 27.5, 2.5, 0.0, 27.5), Row("Bob", 27.5, 2.5, 0.0, 27.5)],
          5.0, 0.0, 55.0, true))
  {
    var roster := [Participant("Alice", []), Participant("Bob", [])];
    NoItemsTotalZero(roster);
  }

  /** Two participants typed in with the same name: the later one's subtotal
      replaces the earlier one's, so the first one's items vanish from the
      items total and, here, the page falls back to an equal split between
      both roster entries although an item was priced. */
  lemma ScenarioDuplicateName()
    ensures var roster := [Participant("Alice", [Item("Pizza", 60.0)]), Participant("Alice", [])];
      && Aggregate(roster) == [Entry("Alice", 0.0)]
      && Split(Bill(100.0, Fixed(0.0), Fixed(0.0)), roster) ==
           Computed(Breakdown(
             [Row("Alice", 50.0, 0.0, 0.0, 50.0), Row("Alice", 50.0, 0.0, 0.0, 50.0)],
             0.0, 0.0, 100.0, true))
  {
    var first := Participant("Alice", [Item("Pizza", 60.0)]);
    var roster := [first, Participant("Alice", [])];
    assert roster[..1] == [first];
    assert [first][..0] == [];
    assert Aggregate([first]) == [Entry("Alice", ItemSubtotal(first))];
    assert Names([Entry("Alice", ItemSubtotal(first))]) == ["Alice"];
    var d := Aggregate(roster);
    assert d == [Entry("Alice", 0.0)];
    assert EntrySubtotals(d) == [0.0];
    SumAppend([], 0.0);
  }
}
