/** The `Deal` record shared by the dashboard, products and prepayment code,
    with its two enumerations and the seven deals the seed script creates.
    Amounts are exact reals; dates are milliseconds since the epoch. */
module Deals {
  import opened Wrappers

  datatype DealStatus = Pending | Active | Closed | Defaulted | PaidOff
  {
    /** The enumeration's database code, as compared against filter strings. */
    function Code(): (code: string)
      ensures code in ["PENDING", "ACTIVE", "CLOSED", "DEFAULTED", "PAID_OFF"]
    {
      match this
      case Pending => "PENDING"
      case Active => "ACTIVE"
      case Closed => "CLOSED"
      case Defaulted => "DEFAULTED"
      case PaidOff => "PAID_OFF"
    }
  }

  datatype ProductType = LineOfCredit | EquipmentFinance | TermLoan
  {
    function Code(): (code: string)
      ensures code in ["LINE_OF_CREDIT", "EQUIPMENT_FINANCE", "TERM_LOAN"]
    {
      match this
      case LineOfCredit => "LINE_OF_CREDIT"
      case EquipmentFinance => "EQUIPMENT_FINANCE"
      case TermLoan => "TERM_LOAN"
    }
  }

  /** Distinct statuses have distinct codes, so comparing codes compares statuses. */
  lemma StatusCodeInjective(a: DealStatus, b: DealStatus)
    ensures a.Code() == b.Code() <==> a == b
  {
  }

  lemma ProductCodeInjective(a: ProductType, b: ProductType)
    ensures a.Code() == b.Code() <==> a == b
  {
  }

  datatype Deal = Deal(
    dealNumber: string,
    productType: ProductType,
    principalAmount: real,
    interestRate: real,
    termMonths: nat,
    monthlyPayment: Option<real>,
    remainingBalance: real,
    nextPaymentDate: Option<int>,
    maturityDate: int,
    originationDate: int,
    status: DealStatus)

  predicate IsActive(d: Deal) { d.status == Active }

  function Balance(d: Deal): real { d.remainingBalance }

  function Principal(d: Deal): real { d.principalAmount }

  /** `Number(deal.monthlyPayment || 0)`: a missing payment counts as 0. */
  function PaymentOrZero(d: Deal): real { if d.monthlyPayment.Some? then d.monthlyPayment.value else 0.0 }

  /** The sample deals of the seed script, in creation order. */
  function SeedDeals(): seq<Deal>
  {
    [ Deal("CF240001", TermLoan, 500000.0, 6.25, 60, Some(9726.48), 425000.0,
           Some(1755216000000), 1878681600000, 1721001600000, Active),
      Deal("CF240002", EquipmentFinance, 350000.0, 5.75, 48, Some(8247.85), 287500.0,
           Some(1755648000000), 1845072000000, 1718928000000, Active),
      Deal("CF240003", LineOfCredit, 250000.0, 7.50, 36, Some(2187.50), 180000.0,
           Some(1754784000000), 1812585600000, 1718064000000, Active),
      Deal("CF240004", TermLoan, 150000.0, 6.00, 36, Some(4560.45), 98500.0,
           Some(1756080000000), 1811203200000, 1716681600000, Active),
      Deal("CF240005", EquipmentFinance, 120000.0, 5.25, 60, Some(2287.42), 89000.0,
           Some(1756512000000), 1872201600000, 1714521600000, Active),
      Deal("CF230001", TermLoan, 75000.0, 8.25, 24, Some(3432.12), 0.0,
           None, 1749945600000, 1686873600000, PaidOff),
      Deal("CF230002", LineOfCredit, 50000.0, 9.75, 12, Some(1531.25), 0.0,
           None, 1735516800000, 1703980800000, Closed) ]
  }
}
