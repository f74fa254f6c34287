/** Group exposures: the largest rounded line amount of each group, once. */
module GroupExposure {
  import opened Prelude
  import opened Ordering
  import opened Domain
  import opened MoneyRounding
  import opened InvoiceHelpers

  function MaxAmount(amounts: seq<Money>): (r: Money)
    requires amounts != []
    ensures r in amounts
    ensures forall i :: 0 <= i < |amounts| ==> amounts[i] <= r
  {
    var n := |amounts| - 1;
    if n == 0 then amounts[0] else MaxNat(MaxAmount(amounts[..n]), amounts[n])
  }

  ghost predicate Aligned(groups: seq<Group>, amounts: seq<seq<Money>>) {
    |groups| == |amounts| && forall i :: 0 <= i < |groups| ==> |amounts[i]| == |groups[i]|
  }

  function ExposuresOf(groups: seq<Group>, amounts: seq<seq<Money>>): seq<Exposure>
    requires Aligned(groups, amounts)
  {
    if groups == [] then []
    else
      var n := |groups| - 1;
      ExposuresOf(groups[..n], amounts[..n]) + [Exposure(groups[n][0].currency, MaxAmount(amounts[n]))]
  }

  lemma ExposuresSnoc(groups: seq<Group>, amounts: seq<seq<Money>>, group: Group, last: seq<Money>)
    requires Aligned(groups, amounts) && |last| == |group|
    ensures ExposuresOf(groups + [group], amounts + [last])
         == ExposuresOf(groups, amounts) + [Exposure(group[0].currency, MaxAmount(last))]
  {
    assert (groups + [group])[..|groups|] == groups;
    assert (amounts + [last])[..|amounts|] == amounts;
  }

  lemma MaxAmountMonotone(less: seq<Money>, more: seq<Money>)
    requires |less| == |more| > 0 && forall j :: 0 <= j < |less| ==> less[j] <= more[j]
    ensures MaxAmount(less) <= MaxAmount(more)
  {
    var j :| 0 <= j < |less| && less[j] == MaxAmount(less);
    assert more[j] <= MaxAmount(more);
  }

  /** The last group adds its largest amount to its currency's total. */
  lemma LastExposure(groups: seq<Group>, amounts: seq<seq<Money>>, n: nat, currency: Code)
    requires Aligned(groups, amounts) && |groups| == n + 1
    ensures Aligned(groups[..n], amounts[..n])
    ensures TotalFor(ExposuresOf(groups, amounts), currency)
         == TotalFor(ExposuresOf(groups[..n], amounts[..n]), currency)
            + if groups[n][0].currency == currency then MaxAmount(amounts[n]) else 0
  {
    TotalSnoc(ExposuresOf(groups[..n], amounts[..n]), Exposure(groups[n][0].currency, MaxAmount(amounts[n])), currency);
  }

  /** Lower line amounts give lower totals in every currency. */
  lemma {:induction false} ExposuresMonotone(
      groups: seq<Group>, less: seq<seq<Money>>, more: seq<seq<Money>>, currency: Code)
    requires Aligned(groups, less) && Aligned(groups, more)
    requires forall i, j :: 0 <= i < |groups| && 0 <= j < |groups[i]| ==> less[i][j] <= more[i][j]
    ensures TotalFor(ExposuresOf(groups, less), currency) <= TotalFor(ExposuresOf(groups, more), currency)
  {
    if groups != [] {
      var n := |groups| - 1;
      ExposuresMonotone(groups[..n], less[..n], more[..n], currency);
      MaxAmountMonotone(less[n], more[n]);
      LastExposure(groups, less, n, currency);
      LastExposure(groups, more, n, currency);
    }
  }

  lemma TotalSnoc(exposures: seq<Exposure>, e: Exposure, currency: Code)
    ensures TotalFor(exposures + [e], currency)
         == TotalFor(exposures, currency) + if e.currency == currency then e.amount else 0
  {
    assert (exposures + [e])[..|exposures|] == exposures;
  }

  // ----- the summary's amounts

  /** The summary's amount for a currency; a currency without an entry counts as zero. */
  function DisputedIn(amounts: seq<CurrencyAmount>, currency: Code): nat {
    if amounts == [] then 0
    else if amounts[|amounts| - 1].currency == currency then amounts[|amounts| - 1].amount
    else DisputedIn(amounts[..|amounts| - 1], currency)
  }

  lemma {:induction false} AmountsMeaning(
      currencies: seq<Code>, exposures: seq<Exposure>, config: Config, currency: Code)
    ensures DisputedIn(Amounts(currencies, exposures, config), currency)
         == if currency in currencies then TotalFor(exposures, currency) else 0
    ensures forall a :: a in Amounts(currencies, exposures, config) ==> a.currency in currencies
  {
    if currencies != [] {
      var n := |currencies| - 1;
      AmountsMeaning(currencies[..n], exposures, config, currency);
      assert currencies == currencies[..n] + [currencies[n]];
      RoundExact(TotalFor(exposures, currencies[n]), config);
      var before := Amounts(currencies[..n], exposures, config);
      var all := Amounts(currencies, exposures, config);
      assert all == before || all[..|all| - 1] == before;
    }
  }

  lemma {:induction false} CurrenciesMeaning(exposures: seq<Exposure>, currency: Code)
    ensures currency !in CurrenciesOf(exposures) ==> TotalFor(exposures, currency) == 0
  {
    if exposures != [] {
      CurrenciesMeaning(exposures[..|exposures| - 1], currency);
    }
  }

  /** The summary reports, for every currency, exactly the sum of the group exposures: rounding
      the sum again changes nothing and dropping zero entries loses nothing. */
  lemma SummaryDisputes(exposures: seq<Exposure>, config: Config, currency: Code)
    ensures DisputedIn(Amounts(SortedCurrencies(exposures), exposures, config), currency)
         == TotalFor(exposures, currency)
  {
    var order, sorted := CurrenciesOf(exposures), SortedCurrencies(exposures);
    SortByCorrect(order, CurrencyKey);
    AmountsMeaning(sorted, exposures, config, currency);
    CurrenciesMeaning(exposures, currency);
    assert currency in sorted <==> currency in multiset(sorted);
    assert currency in order <==> currency in multiset(order);
  }

  ghost function WithStatus(outcomes: seq<Outcome>, status: Status): set<int> {
    set k | 0 <= k < |outcomes| && outcomes[k].status == status
  }

  lemma {:induction false} StatusCountMeaning(outcomes: seq<Outcome>, status: Status)
    ensures StatusCount(outcomes, status) == |WithStatus(outcomes, status)|
  {
    if outcomes != [] {
      var n := |outcomes| - 1;
      StatusCountMeaning(outcomes[..n], status);
      var before, all := WithStatus(outcomes[..n], status), WithStatus(outcomes, status);
      if outcomes[n].status == status {
        assert all == before + {n};
      } else {
        assert all == before;
      }
    }
  }

  lemma {:induction false} StatusesPartition(outcomes: seq<Outcome>)
    ensures StatusCount(outcomes, Matched) + StatusCount(outcomes, ReviewRequired) == |outcomes|
  {
    if outcomes != [] {
      StatusesPartition(outcomes[..|outcomes| - 1]);
    }
  }

  /** The summary counts the matched rows and the rows to review, which together are all rows. */
  lemma SummaryCounts(invoices: seq<InvoiceLine>, outcomes: seq<Outcome>, exposures: seq<Exposure>, config: Config)
    ensures var summary := SummaryOf(invoices, outcomes, exposures, config);
            && summary.lines == |invoices|
            && summary.matched == |set k | 0 <= k < |outcomes| && outcomes[k].status == Matched|
            && summary.matched + summary.reviewRequired == |outcomes|
            && summary.invoices == |set row | row in invoices :: (row.supplier, row.number)|
  {
    StatusCountMeaning(outcomes, Matched);
    StatusesPartition(outcomes);
    assert WithStatus(outcomes, Matched) == set k | 0 <= k < |outcomes| && outcomes[k].status == Matched;
  }

  // ----- walking the groups in order, whatever the mode's result row R is

  function Column<R>(rows: seq<R>, amount: R -> Money): (amounts: seq<Money>)
    ensures |amounts| == |rows|
    ensures forall j :: 0 <= j < |rows| ==> amounts[j] == amount(rows[j])
  {
    seq(|rows|, j requires 0 <= j < |rows| => amount(rows[j]))
  }

  function Columns<R>(rows: seq<seq<R>>, amount: R -> Money): (amounts: seq<seq<Money>>)
    ensures |amounts| == |rows|
    ensures forall i :: 0 <= i < |rows| ==> amounts[i] == Column(rows[i], amount)
  {
    seq(|rows|, i requires 0 <= i < |rows| => Column(rows[i], amount))
  }

  function OutcomesOf<R>(results: seq<R>, outcome: R -> Outcome): (outcomes: seq<Outcome>)
    ensures |outcomes| == |results|
    ensures forall k :: 0 <= k < |results| ==> outcomes[k] == outcome(results[k])
  {
    seq(|results|, k requires 0 <= k < |results| => outcome(results[k]))
  }

  ghost predicate RowPerLine<R>(groups: seq<Group>, all: seq<seq<R>>) {
    |groups| == |all| && forall i :: 0 <= i < |groups| ==> |all[i]| == |groups[i]|
  }

  /** The result rows and exposures after walking the first i groups. */
  ghost predicate Walked<R>(
    groups: seq<Group>, all: seq<seq<R>>, amount: R -> Money, i: nat, results: seq<R>, exposures: seq<Exposure>)
    requires i <= |groups| && RowPerLine(groups, all)
  {
    results == Flatten(all[..i]) && exposures == ExposuresOf(groups[..i], Columns(all[..i], amount))
  }

  lemma WalkedOne<R>(
      groups: seq<Group>, all: seq<seq<R>>, amount: R -> Money, i: nat, results: seq<R>, exposures: seq<Exposure>)
    requires i < |groups| && RowPerLine(groups, all)
    requires Walked(groups, all, amount, i, results, exposures)
    ensures Walked(groups, all, amount, i + 1, results + all[i],
                   exposures + [Exposure(groups[i][0].currency, MaxAmount(Column(all[i], amount)))])
  {
    assert all[..i + 1] == all[..i] + [all[i]];
    FlattenSnoc(all[..i], all[i]);
    assert groups[..i + 1] == groups[..i] + [groups[i]];
    assert Columns(all[..i + 1], amount) == Columns(all[..i], amount) + [Column(all[i], amount)];
    ExposuresSnoc(groups[..i], Columns(all[..i], amount), groups[i], Column(all[i], amount));
  }

  /** `max(row.amount for row in rows)`. */
  method Largest<R>(rows: seq<R>, amount: R -> Money) returns (largest: Money)
    requires rows != []
    ensures largest == MaxAmount(Column(rows, amount))
  {
    largest := amount(rows[0]);
    for j := 1 to |rows|
      invariant largest == MaxAmount(Column(rows, amount)[..j])
    {
      assert Column(rows, amount)[..j + 1][..j] == Column(rows, amount)[..j];
      largest := MaxNat(largest, amount(rows[j]));
    }
    assert Column(rows, amount)[..|rows|] == Column(rows, amount);
  }
}
