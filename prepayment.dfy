/** The prepayment page: the active-deal list loaded by `fetchData`, the
    estimate of `calculatePrepayment`, the form reset of
    `handleSubmitPrepayment`, and `getStatusColor`. */
module Prepayment {
  import opened Wrappers
  import opened Seqs
  import opened Deals
  import opened Utils

  /** `Math.ceil` on an exact real. */
  function Ceil(x: real): (c: int)
    ensures c as real - 1.0 < x <= c as real
  {
    -((-x).Floor)
  }

  /** The inputs on which every step of the estimate is a finite exact real:
      a positive monthly payment (so `B / M` is defined), a positive balance
      (so the term is at least one month) and a rate above -1200%. */
  predicate Estimable(balance: real, annualRate: real, monthlyPayment: real)
  {
    monthlyPayment > 0.0 && balance > 0.0 && annualRate > -1200.0
  }

  /** `Math.ceil(currentBalance / monthlyPayment)`: the fewest payments of
      `monthlyPayment` that cover the balance. */
  function RemainingTermMonths(balance: real, monthlyPayment: real): (n: nat)
    requires monthlyPayment > 0.0 && balance > 0.0
    ensures n >= 1
    ensures (n - 1) as real * monthlyPayment < balance <= n as real * monthlyPayment
  {
    var q := balance / monthlyPayment;
    var c := Ceil(q);
    CeilScaled(balance, monthlyPayment, q, c);
    c
  }

  /** With `q` the quotient `balance / m` and `c - 1 < q <= c`, scaling by
      `m > 0` gives `(c - 1) m < balance <= c m`. */
  lemma CeilScaled(balance: real, m: real, q: real, c: int)
    requires m > 0.0 && q == balance / m && (c - 1) as real < q <= c as real
    ensures (c - 1) as real * m < balance <= c as real * m
  {
    assert q * m == balance;
    assert (c - 1) as real * m < q * m;
    assert q * m <= c as real * m;
  }

  datatype PrepaymentEstimate = PrepaymentEstimate(
    requestedAmount: real,
    currentBalance: real,
    newBalance: real,
    interestSavings: real,
    newMonthlyPayment: real,
    totalSavings: real)

  /** `calculatePrepayment` as written: the interest "without prepayment" is
      what `T = ceil(B / M)` payments of `M` pay beyond the balance, and the
      interest with prepayment is that of the new balance re-amortised over
      the same `T` months. */
  function EstimateAsWritten(balance: real, annualRate: real, monthlyPayment: real, amount: real): PrepaymentEstimate
    requires Estimable(balance, annualRate, monthlyPayment)
  {
    var remainingTermMonths := RemainingTermMonths(balance, monthlyPayment);
    var totalInterestWithoutPrepayment := monthlyPayment * remainingTermMonths as real - balance;
    var newBalance := balance - amount;
    var newMonthlyPayment := LoanPayment(newBalance, annualRate, remainingTermMonths);
    var newTotalInterest := newMonthlyPayment * remainingTermMonths as real - newBalance;
    var interestSavings := totalInterestWithoutPrepayment - newTotalInterest;
    PrepaymentEstimate(amount, balance, newBalance, interestSavings, newMonthlyPayment, interestSavings)
  }

  /** The estimate with both interests computed the same way: the current
      balance and the new balance are each amortised over the same `T` months
      at the deal's rate. */
  function EstimateCorrected(balance: real, annualRate: real, monthlyPayment: real, amount: real): PrepaymentEstimate
    requires Estimable(balance, annualRate, monthlyPayment)
  {
    var remainingTermMonths := RemainingTermMonths(balance, monthlyPayment);
    var totalInterestWithoutPrepayment :=
      TotalInterest(balance, LoanPayment(balance, annualRate, remainingTermMonths), remainingTermMonths);
    var newBalance := balance - amount;
    var newMonthlyPayment := LoanPayment(newBalance, annualRate, remainingTermMonths);
    var newTotalInterest := TotalInterest(newBalance, newMonthlyPayment, remainingTermMonths);
    var interestSavings := totalInterestWithoutPrepayment - newTotalInterest;
    PrepaymentEstimate(amount, balance, newBalance, interestSavings, newMonthlyPayment, interestSavings)
  }

  /** Both estimates report the amount and balance they were given, the new
      balance `B - amount` exactly, the payment that amortises it over the
      same term, and a total saving equal to the interest saving. */
  lemma EstimateFields(balance: real, annualRate: real, monthlyPayment: real, amount: real)
    requires Estimable(balance, annualRate, monthlyPayment)
    ensures var T := RemainingTermMonths(balance, monthlyPayment);
            forall e :: e in [EstimateAsWritten(balance, annualRate, monthlyPayment, amount),
                              EstimateCorrected(balance, annualRate, monthlyPayment, amount)] ==>
              e.requestedAmount == amount && e.currentBalance == balance
              && e.newBalance == balance - amount
              && e.newMonthlyPayment == LoanPayment(balance - amount, annualRate, T)
              && e.totalSavings == e.interestSavings
  {
  }

  /** The baseline "interest" of the code is only the overshoot of the last
      payment: at least 0 and less than one payment. */
  lemma AsWrittenBaselineIsSlack(balance: real, monthlyPayment: real)
    requires monthlyPayment > 0.0 && balance > 0.0
    ensures var T := RemainingTermMonths(balance, monthlyPayment);
            0.0 <= monthlyPayment * T as real - balance < monthlyPayment
  {
    var T := RemainingTermMonths(balance, monthlyPayment);
    assert (T - 1) as real * monthlyPayment == T as real * monthlyPayment - monthlyPayment;
  }

  /** So the saving the code reports never reaches one monthly payment once
      the rate is non-negative and the amount does not exceed the balance,
      however much interest the prepayment really avoids. */
  lemma AsWrittenSavingsBelowOnePayment(balance: real, annualRate: real, monthlyPayment: real, amount: real)
    requires Estimable(balance, annualRate, monthlyPayment)
    requires annualRate >= 0.0 && amount <= balance
    ensures EstimateAsWritten(balance, annualRate, monthlyPayment, amount).interestSavings < monthlyPayment
  {
    var T := RemainingTermMonths(balance, monthlyPayment);
    AsWrittenBaselineIsSlack(balance, monthlyPayment);
    TotalInterestNonNegative(balance - amount, annualRate, T);
  }

  /** With a zero rate the new interest is 0 and the reported saving is the
      baseline `M * T - B`. */
  lemma AsWrittenZeroRate(balance: real, monthlyPayment: real, amount: real)
    requires Estimable(balance, 0.0, monthlyPayment)
    ensures var T := RemainingTermMonths(balance, monthlyPayment);
            EstimateAsWritten(balance, 0.0, monthlyPayment, amount).interestSavings
            == monthlyPayment * T as real - balance
  {
    var T := RemainingTermMonths(balance, monthlyPayment);
    ZeroRateRepaysPrincipal(balance - amount, T);
  }

  /** A balance of 1000 paid at 1000 a month at 12% a year, with 500 prepaid:
      the code reports a saving of -5, while re-amortising both balances gives +5. */
  lemma AsWrittenNegativeSavings()
    ensures EstimateAsWritten(1000.0, 12.0, 1000.0, 500.0).interestSavings == -5.0
    ensures EstimateCorrected(1000.0, 12.0, 1000.0, 500.0).interestSavings == 5.0
  {
    assert RemainingTermMonths(1000.0, 1000.0) == 1;
    assert MonthlyRate(12.0) == 0.01;
    assert Pow(1.01, 1) == 1.01;
    assert LoanPayment(500.0, 12.0, 1) == 505.0;
    assert LoanPayment(1000.0, 12.0, 1) == 1010.0;
  }

  /** The corrected saving is exactly the interest the prepaid amount would
      have cost over the remaining term. */
  lemma CorrectedSavingsIsInterestOnAmount(balance: real, annualRate: real, monthlyPayment: real, amount: real)
    requires Estimable(balance, annualRate, monthlyPayment)
    ensures var T := RemainingTermMonths(balance, monthlyPayment);
            EstimateCorrected(balance, annualRate, monthlyPayment, amount).interestSavings
            == TotalInterest(amount, LoanPayment(amount, annualRate, T), T)
  {
    var T := RemainingTermMonths(balance, monthlyPayment);
    PaymentAdditive(balance - amount, amount, annualRate, T);
    assert (balance - amount) + amount == balance;
  }

  /** Prepaying a non-negative amount at a non-negative rate never costs
      interest, and at a positive rate a positive amount saves some. */
  lemma CorrectedSavingsNonNegative(balance: real, annualRate: real, monthlyPayment: real, amount: real)
    requires Estimable(balance, annualRate, monthlyPayment)
    requires amount >= 0.0 && annualRate >= 0.0
    ensures EstimateCorrected(balance, annualRate, monthlyPayment, amount).interestSavings >= 0.0
    ensures amount > 0.0 && annualRate > 0.0 ==>
              EstimateCorrected(balance, annualRate, monthlyPayment, amount).interestSavings > 0.0
  {
    var T := RemainingTermMonths(balance, monthlyPayment);
    CorrectedSavingsIsInterestOnAmount(balance, annualRate, monthlyPayment, amount);
    TotalInterestNonNegative(amount, annualRate, T);
    if amount > 0.0 && annualRate > 0.0 {
      PaymentExceedsPrincipal(amount, annualRate, T);
    }
  }

  /** At a zero rate there is no interest to save. */
  lemma CorrectedZeroRate(balance: real, monthlyPayment: real, amount: real)
    requires Estimable(balance, 0.0, monthlyPayment)
    ensures EstimateCorrected(balance, 0.0, monthlyPayment, amount).interestSavings == 0.0
  {
    var T := RemainingTermMonths(balance, monthlyPayment);
    CorrectedSavingsIsInterestOnAmount(balance, 0.0, monthlyPayment, amount);
    ZeroRateRepaysPrincipal(amount, T);
  }

  /** A deal row as the dashboard route returns it, with its database id. */
  datatype DealRow = DealRow(id: string, deal: Deal)

  predicate IsActiveRow(r: DealRow) { IsActive(r.deal) }

  /** `deals.find(d => d.id === id)`: the first row with that id. */
  function FindDeal(rows: seq<DealRow>, id: string): (r: Option<DealRow>)
    ensures r.None? <==> forall i :: 0 <= i < |rows| ==> rows[i].id != id
    ensures r.Some? ==> exists k :: 0 <= k < |rows| && rows[k] == r.value && r.value.id == id
                          && forall j :: 0 <= j < k ==> rows[j].id != id
    decreases |rows|
  {
    if |rows| == 0 then None
    else if rows[0].id == id then Some(rows[0])
    else
      var rest := FindDeal(rows[1..], id);
      if rest.Some? then
        var k :| 0 <= k < |rows[1..]| && rows[1..][k] == rest.value && rest.value.id == id
                 && forall j :: 0 <= j < k ==> rows[1..][j].id != id;
        assert rows[k + 1] == rest.value;
        rest
      else rest
  }

  /** The estimate state: `null`, an estimate, or an estimate the exact-real
      model does not compute: a missing or non-positive payment, a balance
      that is not positive or a rate at or below -1200%, where the code
      divides by zero or amortises over a term below one month. */
  datatype EstimateView = NoEstimate | Shown(estimate: PrepaymentEstimate) | OutsideModel

  /** The estimate for one deal: `Number(deal.monthlyPayment || 0)` as `M`. */
  function EstimateOf(d: Deal, amount: real): EstimateView
  {
    if Estimable(d.remainingBalance, d.interestRate, PaymentOrZero(d))
    then Shown(EstimateAsWritten(d.remainingBalance, d.interestRate, PaymentOrZero(d), amount))
    else OutsideModel
  }

  /** The page shows the code's figures: for a deal at a non-negative rate and
      an amount not above its balance, the saving shown stays below one
      monthly payment, and it is shown exactly when the deal is estimable. */
  lemma ShownSavingsBelowOnePayment(d: Deal, amount: real)
    requires d.interestRate >= 0.0 && amount <= d.remainingBalance
    ensures EstimateOf(d, amount).Shown? <==>
              Estimable(d.remainingBalance, d.interestRate, PaymentOrZero(d))
    ensures EstimateOf(d, amount).Shown? ==>
              EstimateOf(d, amount).estimate.interestSavings < PaymentOrZero(d)
  {
    if Estimable(d.remainingBalance, d.interestRate, PaymentOrZero(d)) {
      AsWrittenSavingsBelowOnePayment(d.remainingBalance, d.interestRate, PaymentOrZero(d), amount);
    }
  }

  /** `getStatusColor` for prepayment requests. */
  function StatusColor(status: string): (color: string)
    ensures color in ["warning", "success", "destructive", "secondary"]
    ensures color == "success" <==> status in ["APPROVED", "COMPLETED"]
    ensures color == "warning" <==> status == "PENDING"
    ensures color == "destructive" <==> status == "REJECTED"
  {
    if status == "PENDING" then "warning"
    else if status == "APPROVED" then "success"
    else if status == "COMPLETED" then "success"
    else if status == "REJECTED" then "destructive"
    else "secondary"
  }

  class PrepaymentPage {
    var deals: seq<DealRow>
    var selectedDeal: string
    var prepaymentAmount: string
    var loading: bool
    var calculating: bool
    var prepaymentEstimate: EstimateView

    /** Only active deals are offered for prepayment. */
    predicate Valid()
      reads this
    {
      forall i :: 0 <= i < |deals| ==> IsActiveRow(deals[i])
    }

    constructor()
      ensures Valid()
      ensures deals == [] && selectedDeal == "" && prepaymentAmount == ""
      ensures loading && !calculating && prepaymentEstimate == NoEstimate
    {
      deals := [];
      selectedDeal := "";
      prepaymentAmount := "";
      loading := true;
      calculating := false;
      prepaymentEstimate := NoEstimate;
    }

    /** `fetchData`: on an OK response the active rows of `data.deals` (none
        when the field is absent) replace the list; a failed or throwing
        request leaves it alone. Loading ends either way. */
    method FetchData(ok: bool, data: Option<seq<DealRow>>)
      requires Valid()
      modifies this
      ensures Valid()
      ensures ok ==> deals == Filter(if data.Some? then data.value else [], IsActiveRow)
      ensures !ok ==> deals == old(deals)
      ensures !loading
      ensures selectedDeal == old(selectedDeal) && prepaymentAmount == old(prepaymentAmount)
      ensures calculating == old(calculating) && prepaymentEstimate == old(prepaymentEstimate)
    {
      if ok {
        var rows := if data.Some? then data.value else [];
        var activeDeals := Filter(rows, IsActiveRow);
        deals := activeDeals;
      }
      loading := false;
    }

    /** `calculatePrepayment`, with `amount` the value of
        `parseFloat(prepaymentAmount)`. Past the guard, `calculating` is
        raised and then lowered on every exit, the not-found return included;
        only a found deal changes the estimate. */
    method CalculatePrepayment(amount: real)
      requires Valid()
      modifies this
      ensures Valid()
      ensures deals == old(deals) && selectedDeal == old(selectedDeal)
      ensures prepaymentAmount == old(prepaymentAmount) && loading == old(loading)
      ensures selectedDeal == "" || prepaymentAmount == "" ==>
                calculating == old(calculating) && prepaymentEstimate == old(prepaymentEstimate)
      ensures selectedDeal != "" && prepaymentAmount != "" ==> !calculating
      ensures selectedDeal != "" && prepaymentAmount != "" ==>
                prepaymentEstimate == (match FindDeal(deals, selectedDeal)
                                       case None => old(prepaymentEstimate)
                                       case Some(row) => EstimateOf(row.deal, amount))
    {
      if selectedDeal == "" || prepaymentAmount == "" {
        return;
      }
      calculating := true;
      var found := FindDeal(deals, selectedDeal);
      if found.None? {
        calculating := false;
        return;
      }
      var deal := found.value.deal;
      var currentBalance := deal.remainingBalance;
      var interestRate := deal.interestRate;
      var monthlyPayment := PaymentOrZero(deal);
      if Estimable(currentBalance, interestRate, monthlyPayment) {
        prepaymentEstimate := Shown(EstimateAsWritten(currentBalance, interestRate, monthlyPayment, amount));
      } else {
        prepaymentEstimate := OutsideModel;
      }
      calculating := false;
    }

    /** `handleSubmitPrepayment`: with a field or the estimate missing it
        reports the error and changes nothing; otherwise it reports success
        and clears the deal, the amount and the estimate. */
    method SubmitPrepayment() returns (toast: Result<string>)
      requires Valid()
      modifies this
      ensures Valid()
      ensures deals == old(deals) && loading == old(loading) && calculating == old(calculating)
      ensures old(selectedDeal) == "" || old(prepaymentAmount) == "" || old(prepaymentEstimate) == NoEstimate ==>
                toast == Failure("Please complete all fields")
                && selectedDeal == old(selectedDeal) && prepaymentAmount == old(prepaymentAmount)
                && prepaymentEstimate == old(prepaymentEstimate)
      ensures old(selectedDeal) != "" && old(prepaymentAmount) != "" && old(prepaymentEstimate) != NoEstimate ==>
                toast == Success("Prepayment request submitted successfully!")
                && selectedDeal == "" && prepaymentAmount == "" && prepaymentEstimate == NoEstimate
    {
      if selectedDeal == "" || prepaymentAmount == "" || prepaymentEstimate == NoEstimate {
        toast := Failure("Please complete all fields");
        return;
      }
      toast := Success("Prepayment request submitted successfully!");
      selectedDeal := "";
      prepaymentAmount := "";
      prepaymentEstimate := NoEstimate;
    }
  }

  /** Whatever the page shows as an estimate belongs to a loaded, hence
      active, deal: the row `find` returns is one of the list's rows. */
  lemma FoundRowIsActive(rows: seq<DealRow>, id: string)
    requires forall i :: 0 <= i < |rows| ==> IsActiveRow(rows[i])
    ensures FindDeal(rows, id).Some? ==> IsActive(FindDeal(rows, id).value.deal)
  {
  }
}
