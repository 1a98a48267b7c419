/** Loan arithmetic and label helpers of `app/lib/utils.ts`.
    Money and rates are exact reals; `annualRate` is a percentage. */
module Utils {

  function Pow(x: real, n: nat): real
  {
    if n == 0 then 1.0 else x * Pow(x, n - 1)
  }

  /** 1 + x + x^2 + ... + x^(n-1), in Horner form. */
  function GeomSum(x: real, n: nat): real
  {
    if n == 0 then 0.0 else 1.0 + x * GeomSum(x, n - 1)
  }

  /** `annualRate / 100 / 12`. */
  function MonthlyRate(annualRate: real): real
  {
    annualRate / 100.0 / 12.0
  }

  /** The inputs on which `calculateLoanPayment` performs no division by zero:
      at least one month, and a monthly growth factor `1 + i` above zero. */
  predicate PaymentDefined(annualRate: real, termMonths: nat)
  {
    termMonths >= 1 && annualRate > -1200.0
  }

  lemma {:induction false} GeomIdentity(x: real, n: nat)
    ensures Pow(x, n) - 1.0 == (x - 1.0) * GeomSum(x, n)
  {
    if n > 0 {
      GeomIdentity(x, n - 1);
      calc {
        Pow(x, n) - 1.0;
        x * (Pow(x, n - 1) - 1.0) + (x - 1.0);
        x * ((x - 1.0) * GeomSum(x, n - 1)) + (x - 1.0);
        (x - 1.0) * (1.0 + x * GeomSum(x, n - 1));
      }
    }
  }

  lemma {:induction false} GeomSumPositive(x: real, n: nat)
    requires x > 0.0 && n >= 1
    ensures GeomSum(x, n) >= 1.0
  {
    if n > 1 {
      GeomSumPositive(x, n - 1);
      assert x * GeomSum(x, n - 1) > 0.0;
    }
  }

  lemma {:induction false} PowPositive(x: real, n: nat)
    requires x > 0.0
    ensures Pow(x, n) > 0.0
  {
    if n > 0 {
      PowPositive(x, n - 1);
      assert x * Pow(x, n - 1) > 0.0;
    }
  }

  /** For a positive growth factor other than 1, (1+i)^n - 1 is never 0. */
  lemma PowMinusOneNonZero(x: real, n: nat)
    requires x > 0.0 && x != 1.0 && n >= 1
    ensures Pow(x, n) - 1.0 != 0.0
    ensures Pow(x, n) - 1.0 == (x - 1.0) * GeomSum(x, n)
  {
    GeomIdentity(x, n);
    GeomSumPositive(x, n);
  }

  /** The annuity equation: `payment` times the geometric sum `g` equals
      `principal` times the growth `p`. */
  predicate Annuity(payment: real, principal: real, g: real, p: real)
  {
    payment * g == principal * p
  }

  /** `calculateLoanPayment`: the fixed monthly payment of a fully amortising loan.
      Both branches satisfy the annuity equation
      payment * (1 + x + ... + x^(n-1)) == principal * x^n with x = 1 + monthly rate. */
  function LoanPayment(principal: real, annualRate: real, termMonths: nat): (payment: real)
    requires PaymentDefined(annualRate, termMonths)
    ensures MonthlyRate(annualRate) == 0.0 ==> payment == principal / termMonths as real
    ensures GeomSum(1.0 + MonthlyRate(annualRate), termMonths) >= 1.0
    ensures Annuity(payment, principal, GeomSum(1.0 + MonthlyRate(annualRate), termMonths),
                    Pow(1.0 + MonthlyRate(annualRate), termMonths))
  {
    AnnuityPayment(principal, MonthlyRate(annualRate), termMonths)
  }

  /** The same payment in terms of the monthly rate `i`. */
  function AnnuityPayment(principal: real, i: real, n: nat): (payment: real)
    requires n >= 1 && i > -1.0
    ensures i == 0.0 ==> payment == principal / n as real
    ensures GeomSum(1.0 + i, n) >= 1.0
    ensures Annuity(payment, principal, GeomSum(1.0 + i, n), Pow(1.0 + i, n))
  {
    GeomSumPositive(1.0 + i, n);
    if i == 0.0 then
      ZeroRateAnnuity(principal, n);
      principal / n as real
    else
      AnnuityEquation(principal, i, n);
      RatedPayment(principal, i, Pow(1.0 + i, n))
  }

  /** `principal * (i * g) / (g - 1)` with `g` the growth factor (1+i)^n;
      0 where the divisor vanishes, which never happens for n >= 1 and i != 0. */
  function RatedPayment(principal: real, i: real, growth: real): real
  {
    if growth - 1.0 == 0.0 then 0.0 else principal * i * growth / (growth - 1.0)
  }

  lemma ZeroRateAnnuity(principal: real, n: nat)
    requires n >= 1
    ensures (principal / n as real) * GeomSum(1.0, n) == principal * Pow(1.0, n)
  {
    PowOne(n);
  }

  lemma AnnuityEquation(principal: real, i: real, n: nat)
    requires n >= 1 && i > -1.0 && i != 0.0
    ensures RatedPayment(principal, i, Pow(1.0 + i, n)) * GeomSum(1.0 + i, n) == principal * Pow(1.0 + i, n)
  {
    PowMinusOneNonZero(1.0 + i, n);
    GeomSumPositive(1.0 + i, n);
    AnnuityCancel(principal, i, Pow(1.0 + i, n), GeomSum(1.0 + i, n));
  }

  /** From p - 1 = i g with i != 0: (P i p / (p - 1)) g = P p. */
  lemma AnnuityCancel(principal: real, i: real, p: real, g: real)
    requires i != 0.0 && g >= 1.0 && p - 1.0 == i * g
    ensures RatedPayment(principal, i, p) * g == principal * p
  {
    assert i * g != 0.0;
    var q := principal * i * p / (p - 1.0);
    assert RatedPayment(principal, i, p) == q;
    assert q * (p - 1.0) == principal * i * p;
    assert q * (i * g) == principal * i * p;
    assert (q * g) * i == (principal * p) * i;
    CancelMul(q * g, principal * p, i);
  }

  lemma CancelMul(a: real, b: real, c: real)
    requires c != 0.0 && a * c == b * c
    ensures a == b
  {
    assert (a - b) * c == 0.0;
  }

  /** `calculateTotalInterest`: everything paid minus the principal. */
  function TotalInterest(principal: real, monthlyPayment: real, termMonths: int): real
  {
    monthlyPayment * termMonths as real - principal
  }

  /** The balance after `k` monthly payments `m` at monthly rate `i`:
      each month the balance grows by `i` and then the payment is deducted. */
  function Balance(principal: real, i: real, m: real, k: nat): real
  {
    if k == 0 then principal else Balance(principal, i, m, k - 1) * (1.0 + i) - m
  }

  /** The interest charged over the first `k` months of that schedule. */
  function InterestCharged(principal: real, i: real, m: real, k: nat): real
  {
    if k == 0 then 0.0 else InterestCharged(principal, i, m, k - 1) + Balance(principal, i, m, k - 1) * i
  }

  lemma {:induction false} BalanceClosedForm(principal: real, i: real, m: real, k: nat)
    ensures Balance(principal, i, m, k) == principal * Pow(1.0 + i, k) - m * GeomSum(1.0 + i, k)
  {
    if k > 0 {
      BalanceClosedForm(principal, i, m, k - 1);
      var x := 1.0 + i;
      calc {
        Balance(principal, i, m, k);
        (principal * Pow(x, k - 1) - m * GeomSum(x, k - 1)) * x - m;
        principal * (x * Pow(x, k - 1)) - m * (1.0 + x * GeomSum(x, k - 1));
      }
    }
  }

  lemma {:induction false} PowOne(n: nat)
    ensures Pow(1.0, n) == 1.0 && GeomSum(1.0, n) == n as real
  {
    if n > 0 {
      PowOne(n - 1);
    }
  }

  /** A payment `m` with m * G = P * X (X = (1+i)^n, G the matching geometric sum)
      leaves no balance after n months. */
  lemma ClosedFormAmortizes(principal: real, i: real, m: real, n: nat)
    requires m * GeomSum(1.0 + i, n) == principal * Pow(1.0 + i, n)
    ensures Balance(principal, i, m, n) == 0.0
  {
    BalanceClosedForm(principal, i, m, n);
  }

  /** The payment pays the loan off exactly: after `termMonths` payments the balance is 0. */
  lemma PaymentAmortizes(principal: real, annualRate: real, termMonths: nat)
    requires PaymentDefined(annualRate, termMonths)
    ensures Balance(principal, MonthlyRate(annualRate), LoanPayment(principal, annualRate, termMonths), termMonths) == 0.0
  {
    ClosedFormAmortizes(principal, MonthlyRate(annualRate), LoanPayment(principal, annualRate, termMonths), termMonths);
  }

  lemma {:induction false} InterestChargedTelescopes(principal: real, i: real, m: real, k: nat)
    ensures InterestCharged(principal, i, m, k) == m * k as real - principal + Balance(principal, i, m, k)
  {
    if k > 0 {
      InterestChargedTelescopes(principal, i, m, k - 1);
    }
  }

  /** `calculateTotalInterest` applied to the annuity payment is the interest the schedule charges. */
  lemma TotalInterestIsScheduleInterest(principal: real, annualRate: real, termMonths: nat)
    requires PaymentDefined(annualRate, termMonths)
    ensures TotalInterest(principal, LoanPayment(principal, annualRate, termMonths), termMonths)
         == InterestCharged(principal, MonthlyRate(annualRate), LoanPayment(principal, annualRate, termMonths), termMonths)
  {
    var m := LoanPayment(principal, annualRate, termMonths);
    PaymentAmortizes(principal, annualRate, termMonths);
    InterestChargedTelescopes(principal, MonthlyRate(annualRate), m, termMonths);
  }

  /** For a growth factor above 1 the geometric sum of n terms stays below
      n times the top power. */
  lemma {:induction false} GeomSumStrictlyBelow(x: real, n: nat)
    requires x > 1.0 && n >= 1
    ensures Pow(x, n) > 1.0
    ensures GeomSum(x, n) < n as real * Pow(x, n)
  {
    if n > 1 {
      GeomSumStrictlyBelow(x, n - 1);
      StrictlyBelowStep(x, GeomSum(x, n - 1), Pow(x, n - 1), (n - 1) as real);
    }
  }

  lemma StrictlyBelowStep(x: real, g: real, p: real, k: real)
    requires x > 1.0 && p > 1.0 && k >= 1.0 && g < k * p
    ensures x * p > 1.0
    ensures 1.0 + x * g < (k + 1.0) * (x * p)
  {
    assert x * p > p;
    assert x * g < x * (k * p);
    assert x * (k * p) == k * (x * p);
  }

  /** With a positive rate the payments add up to more than the principal,
      so `calculateTotalInterest` of the annuity payment is positive. */
  lemma PaymentExceedsPrincipal(principal: real, annualRate: real, termMonths: nat)
    requires PaymentDefined(annualRate, termMonths)
    requires principal > 0.0 && annualRate > 0.0
    ensures LoanPayment(principal, annualRate, termMonths) * termMonths as real > principal
    ensures TotalInterest(principal, LoanPayment(principal, annualRate, termMonths), termMonths) > 0.0
  {
    var x := 1.0 + MonthlyRate(annualRate);
    var m := LoanPayment(principal, annualRate, termMonths);
    assert m * termMonths as real > principal by {
      GeomSumStrictlyBelow(x, termMonths);
      ExceedsFromAnnuity(principal, m, GeomSum(x, termMonths), Pow(x, termMonths), termMonths as real);
    }
  }

  /** From the annuity equation m g = P p and n p > g: the n payments exceed P. */
  lemma ExceedsFromAnnuity(principal: real, m: real, g: real, p: real, n: real)
    requires g > 0.0 && principal > 0.0 && Annuity(m, principal, g, p) && n * p > g
    ensures m * n > principal
  {
    assert (m * n) * g == principal * (n * p);
    assert principal * (n * p) > principal * g;
  }

  /** With a zero rate the payments add up to exactly the principal. */
  lemma ZeroRateRepaysPrincipal(principal: real, termMonths: nat)
    requires termMonths >= 1
    ensures LoanPayment(principal, 0.0, termMonths) * termMonths as real == principal
    ensures TotalInterest(principal, LoanPayment(principal, 0.0, termMonths), termMonths) == 0.0
  {
  }

  /** The payment is linear in the principal. */
  lemma PaymentScales(c: real, principal: real, annualRate: real, termMonths: nat)
    requires PaymentDefined(annualRate, termMonths)
    ensures LoanPayment(c * principal, annualRate, termMonths) == c * LoanPayment(principal, annualRate, termMonths)
  {
    var x := 1.0 + MonthlyRate(annualRate);
    var m := LoanPayment(principal, annualRate, termMonths);
    var mc := LoanPayment(c * principal, annualRate, termMonths);
    assert mc == c * m by {
      ScaleAnnuity(c, principal, m, mc, GeomSum(x, termMonths), Pow(x, termMonths));
    }
  }

  lemma ScaleAnnuity(c: real, principal: real, m: real, mc: real, g: real, p: real)
    requires g >= 1.0 && Annuity(m, principal, g, p) && Annuity(mc, c * principal, g, p)
    ensures mc == c * m
  {
    assert (c * m) * g == c * (m * g);
    CancelMul(mc, c * m, g);
  }

  /** The payment is additive in the principal: paying off `a + b` costs the
      payment for `a` plus the payment for `b`. */
  lemma PaymentAdditive(a: real, b: real, annualRate: real, termMonths: nat)
    requires PaymentDefined(annualRate, termMonths)
    ensures LoanPayment(a + b, annualRate, termMonths)
         == LoanPayment(a, annualRate, termMonths) + LoanPayment(b, annualRate, termMonths)
  {
    var x := 1.0 + MonthlyRate(annualRate);
    AddAnnuity(a, b, LoanPayment(a, annualRate, termMonths), LoanPayment(b, annualRate, termMonths),
               LoanPayment(a + b, annualRate, termMonths), GeomSum(x, termMonths), Pow(x, termMonths));
  }

  lemma AddAnnuity(a: real, b: real, pa: real, pb: real, pab: real, g: real, p: real)
    requires g >= 1.0 && Annuity(pa, a, g, p) && Annuity(pb, b, g, p) && Annuity(pab, a + b, g, p)
    ensures pab == pa + pb
  {
    assert (pa + pb) * g == (a + b) * p;
    CancelMul(pab, pa + pb, g);
  }

  /** A non-negative principal at a non-negative rate never has negative total interest. */
  lemma TotalInterestNonNegative(principal: real, annualRate: real, termMonths: nat)
    requires PaymentDefined(annualRate, termMonths)
    requires principal >= 0.0 && annualRate >= 0.0
    ensures TotalInterest(principal, LoanPayment(principal, annualRate, termMonths), termMonths) >= 0.0
  {
    if annualRate == 0.0 {
      ZeroRateRepaysPrincipal(principal, termMonths);
    } else if principal > 0.0 {
      PaymentExceedsPrincipal(principal, annualRate, termMonths);
    } else {
      PaymentScales(0.0, 0.0, annualRate, termMonths);
    }
  }

  /** `truncateText`: text longer than `maxLength` is cut to `maxLength`
      characters (none when it is negative) and "..." is appended. */
  function TruncateText(text: string, maxLength: int): (r: string)
    ensures |text| <= maxLength ==> r == text
    ensures |text| > maxLength ==>
              |r| == (if maxLength < 0 then 0 else maxLength) + 3
              && r[|r| - 3..] == "..."
              && r[..|r| - 3] <= text
  {
    if |text| <= maxLength then text
    else
      var keep := if maxLength < 0 then 0 else maxLength;
      assert (text[..keep] + "...")[..keep] == text[..keep];
      text[..keep] + "..."
  }

  /** `getProductTypeLabel`. */
  function ProductTypeLabel(productType: string): (text: string)
    ensures productType == "LINE_OF_CREDIT" ==> text == "Line of Credit"
    ensures productType == "EQUIPMENT_FINANCE" ==> text == "Equipment Finance"
    ensures productType == "TERM_LOAN" ==> text == "Term Loan"
    ensures text != productType <==>
              productType in ["LINE_OF_CREDIT", "EQUIPMENT_FINANCE", "TERM_LOAN"]
  {
    if productType == "LINE_OF_CREDIT" then "Line of Credit"
    else if productType == "EQUIPMENT_FINANCE" then "Equipment Finance"
    else if productType == "TERM_LOAN" then "Term Loan"
    else productType
  }

  /** A label is never itself a product code, so labelling twice changes nothing. */
  lemma ProductTypeLabelIdempotent(productType: string)
    ensures ProductTypeLabel(ProductTypeLabel(productType)) == ProductTypeLabel(productType)
  {
  }

  /** `getDealStatusColor`: total over all strings. */
  function DealStatusColor(status: string): (color: string)
    ensures color in ["success", "warning", "secondary", "destructive", "info"]
    ensures color == "secondary" <==>
              status !in ["ACTIVE", "PENDING", "DEFAULTED", "PAID_OFF"]
    ensures status == "ACTIVE" ==> color == "success"
    ensures status == "PENDING" ==> color == "warning"
    ensures status == "DEFAULTED" ==> color == "destructive"
    ensures status == "PAID_OFF" ==> color == "info"
  {
    if status == "ACTIVE" then "success"
    else if status == "PENDING" then "warning"
    else if status == "CLOSED" then "secondary"
    else if status == "DEFAULTED" then "destructive"
    else if status == "PAID_OFF" then "info"
    else "secondary"
  }

  /** `getTransactionTypeColor`. */
  function TransactionTypeColor(transactionType: string): (color: string)
    ensures color == "text-green-600" <==> transactionType in ["DISBURSEMENT", "REFUND"]
    ensures color == "text-gray-600" <==>
              transactionType !in ["PAYMENT", "DISBURSEMENT", "FEE", "INTEREST", "REFUND"]
    ensures transactionType == "PAYMENT" ==> color == "text-red-600"
    ensures transactionType == "FEE" ==> color == "text-orange-600"
    ensures transactionType == "INTEREST" ==> color == "text-blue-600"
  {
    if transactionType == "PAYMENT" then "text-red-600"
    else if transactionType == "DISBURSEMENT" then "text-green-600"
    else if transactionType == "FEE" then "text-orange-600"
    else if transactionType == "INTEREST" then "text-blue-600"
    else if transactionType == "REFUND" then "text-green-600"
    else "text-gray-600"
  }
}
