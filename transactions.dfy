/** The transactions page: `filterTransactions`, `calculateSummary` and the
    sign printed before each amount. */
module Transactions {
  import opened Wrappers
  import opened Seqs
  import opened Text
  import Utils

  /** A transaction as the page reads it; `transactionDate` is in
      milliseconds since the epoch. */
  datatype Transaction = Transaction(
    transactionType: string,
    amount: real,
    description: string,
    merchantName: Option<string>,
    referenceNumber: Option<string>,
    transactionDate: int,
    status: string)

  const DayMs: int := 24 * 60 * 60 * 1000

  /** The four filter controls: `dateRange` is "all" or a day count such as
      "30" (the initial value), the type and status filters are "all" or a
      code, and the search term is free text. */
  datatype Filters = Filters(dateRange: string, filterType: string, filterStatus: string, searchTerm: string)

  /** `new Date(txn.transactionDate) >= cutoffDate` for the cutoff `now` minus
      `daysAgo` days. A `NaN` day count makes the cutoff an invalid date, and
      no comparison with an invalid date holds. */
  predicate OnOrAfterCutoff(t: Transaction, now: int, daysAgo: Option<int>)
  {
    daysAgo.Some? && t.transactionDate >= now - daysAgo.value * DayMs
  }

  /** The lower-cased term occurs in the lower-cased description, merchant
      name or reference number; an absent optional field matches nothing. */
  predicate MatchesSearch(t: Transaction, term: string)
  {
    var q := Lower(term);
    Includes(Lower(t.description), q)
    || (t.merchantName.Some? && Includes(Lower(t.merchantName.value), q))
    || (t.referenceNumber.Some? && Includes(Lower(t.referenceNumber.value), q))
  }

  predicate DatePasses(f: Filters, now: int, t: Transaction)
  {
    f.dateRange != "all" ==> OnOrAfterCutoff(t, now, ParseInt(f.dateRange))
  }

  predicate TypePasses(f: Filters, t: Transaction)
  {
    f.filterType != "all" ==> t.transactionType == f.filterType
  }

  predicate StatusPasses(f: Filters, t: Transaction)
  {
    f.filterStatus != "all" ==> t.status == f.filterStatus
  }

  predicate SearchPasses(f: Filters, t: Transaction)
  {
    f.searchTerm != "" ==> MatchesSearch(t, f.searchTerm)
  }

  /** Reference definition of the list: a transaction is shown iff it passes
      every control that is set. */
  predicate Shown(f: Filters, now: int, t: Transaction)
  {
    DatePasses(f, now, t) && TypePasses(f, t) && StatusPasses(f, t) && SearchPasses(f, t)
  }

  /** `filterTransactions`: starts from a copy of all transactions and narrows
      it by each control that is set, in the page's order. The result is the
      single-pass filter by `Shown`. */
  method FilterTransactions(transactions: seq<Transaction>, f: Filters, now: int)
    returns (filtered: seq<Transaction>)
    ensures filtered == Filter(transactions, (t: Transaction) => Shown(f, now, t))
  {
    ghost var byDate := (t: Transaction) => DatePasses(f, now, t);
    ghost var byType := (t: Transaction) => DatePasses(f, now, t) && TypePasses(f, t);
    ghost var byStatus := (t: Transaction) => DatePasses(f, now, t) && TypePasses(f, t) && StatusPasses(f, t);
    ghost var shown := (t: Transaction) => Shown(f, now, t);

    filtered := transactions;

    if f.dateRange != "all" {
      var daysAgo := ParseInt(f.dateRange);
      var onOrAfter := (t: Transaction) => OnOrAfterCutoff(t, now, daysAgo);
      FilterCongruent(transactions, onOrAfter, byDate);
      filtered := Filter(filtered, onOrAfter);
    } else {
      FilterKeepsAll(transactions, byDate);
    }
    assert filtered == Filter(transactions, byDate);

    if f.filterType != "all" {
      var ofType := (t: Transaction) => t.transactionType == f.filterType;
      FilterThen(transactions, byDate, ofType, byType);
      filtered := Filter(filtered, ofType);
    } else {
      FilterCongruent(transactions, byDate, byType);
    }
    assert filtered == Filter(transactions, byType);

    if f.filterStatus != "all" {
      var ofStatus := (t: Transaction) => t.status == f.filterStatus;
      FilterThen(transactions, byType, ofStatus, byStatus);
      filtered := Filter(filtered, ofStatus);
    } else {
      FilterCongruent(transactions, byType, byStatus);
    }
    assert filtered == Filter(transactions, byStatus);

    if f.searchTerm != "" {
      var matching := (t: Transaction) => MatchesSearch(t, f.searchTerm);
      FilterThen(transactions, byStatus, matching, shown);
      filtered := Filter(filtered, matching);
    } else {
      FilterCongruent(transactions, byStatus, shown);
    }
  }

  /** The list keeps the input order, and a transaction is listed iff it is in
      the input and passes every control that is set. */
  lemma ListedIff(transactions: seq<Transaction>, f: Filters, now: int, t: Transaction)
    ensures IsSubsequence(Filter(transactions, (x: Transaction) => Shown(f, now, x)), transactions)
    ensures t in Filter(transactions, (x: Transaction) => Shown(f, now, x))
            <==> t in transactions && Shown(f, now, t)
  {
    var r := Filter(transactions, (x: Transaction) => Shown(f, now, x));
    FilterIsSubsequence(transactions, (x: Transaction) => Shown(f, now, x));
    if t in r {
      var i :| 0 <= i < |r| && r[i] == t;
    }
    if t in transactions && Shown(f, now, t) {
      var i :| 0 <= i < |transactions| && transactions[i] == t;
    }
  }

  /** With a day count set, every listed transaction is dated no earlier than
      `now` minus that many days. */
  lemma ListedWithinRange(transactions: seq<Transaction>, f: Filters, now: int, days: int)
    requires ParseInt(f.dateRange) == Some(days)
    ensures forall t :: t in Filter(transactions, (x: Transaction) => Shown(f, now, x)) ==>
              t.transactionDate >= now - days * DayMs
  {
    forall t | t in Filter(transactions, (x: Transaction) => Shown(f, now, x))
      ensures t.transactionDate >= now - days * DayMs
    {
      ListedIff(transactions, f, now, t);
      assert f.dateRange != "all";
    }
  }

  /** A date range that is neither "all" nor a number lists nothing. */
  lemma UnparsableRangeListsNothing(transactions: seq<Transaction>, f: Filters, now: int)
    requires f.dateRange != "all" && ParseInt(f.dateRange) == None
    ensures Filter(transactions, (x: Transaction) => Shown(f, now, x)) == []
  {
    FilterDropsAll(transactions, (x: Transaction) => Shown(f, now, x));
  }

  /** With every control cleared the whole input is listed, in order. */
  lemma NoControlsListsAll(transactions: seq<Transaction>, now: int)
    ensures Filter(transactions, (x: Transaction) => Shown(Filters("all", "all", "all", ""), now, x)) == transactions
  {
    FilterKeepsAll(transactions, (x: Transaction) => Shown(Filters("all", "all", "all", ""), now, x));
  }

  /** Skipping the search for an empty term changes nothing: the empty term
      occurs in every description. */
  lemma EmptyTermMatchesAll(t: Transaction)
    ensures MatchesSearch(t, "")
  {
    IncludesEmpty(Lower(t.description));
  }

  /** The search ignores the case of the term. */
  lemma SearchIgnoresTermCase(t: Transaction, term: string)
    ensures MatchesSearch(t, term) == MatchesSearch(t, Lower(term))
  {
    LowerIdempotent(term);
  }

  /** The three summary cards. */
  datatype FlowSummary = FlowSummary(totalInflow: real, totalOutflow: real, netFlow: real)

  predicate IsInflow(t: Transaction) { t.transactionType in ["DISBURSEMENT", "REFUND"] }

  predicate IsOutflow(t: Transaction) { t.transactionType in ["PAYMENT", "FEE", "INTEREST", "PRINCIPAL"] }

  /** Types the summary counts on neither side (TRANSFER, DEPOSIT, WITHDRAWAL, ...). */
  predicate Uncounted(t: Transaction) { !IsInflow(t) && !IsOutflow(t) }

  predicate Counted(t: Transaction) { IsInflow(t) || IsOutflow(t) }

  function Amount(t: Transaction): real { t.amount }

  /** `calculateSummary` over the listed transactions. */
  function Summary(filtered: seq<Transaction>): (r: FlowSummary)
    ensures |filtered| == 0 ==> r == FlowSummary(0.0, 0.0, 0.0)
  {
    var totalInflow := Sum(Filter(filtered, IsInflow), Amount);
    var totalOutflow := Sum(Filter(filtered, IsOutflow), Amount);
    FlowSummary(totalInflow, totalOutflow, totalInflow - totalOutflow)
  }

  /** Nothing is counted twice and nothing counted is lost: inflow, outflow and
      the uncounted types together make up the sum of all amounts. */
  lemma SummaryConserves(filtered: seq<Transaction>)
    ensures Summary(filtered).totalInflow + Summary(filtered).totalOutflow
            + Sum(Filter(filtered, Uncounted), Amount)
         == Sum(filtered, Amount)
  {
    var rest := Filter(filtered, Not(IsInflow));
    assert Sum(Filter(filtered, IsInflow), Amount) + Sum(rest, Amount) == Sum(filtered, Amount) by {
      SumSplit(filtered, IsInflow, Amount);
    }
    assert Sum(Filter(rest, IsOutflow), Amount) + Sum(Filter(rest, Not(IsOutflow)), Amount)
        == Sum(rest, Amount) by {
      SumSplit(rest, IsOutflow, Amount);
    }
    assert Filter(rest, IsOutflow) == Filter(filtered, IsOutflow) by {
      forall i | 0 <= i < |filtered|
        ensures IsOutflow(filtered[i]) == (Not(IsInflow)(filtered[i]) && IsOutflow(filtered[i]))
      {
        InflowNotOutflow(filtered[i]);
      }
      FilterThen(filtered, Not(IsInflow), IsOutflow, IsOutflow);
    }
    assert Filter(rest, Not(IsOutflow)) == Filter(filtered, Uncounted) by {
      forall i | 0 <= i < |filtered|
        ensures Uncounted(filtered[i]) == (Not(IsInflow)(filtered[i]) && Not(IsOutflow)(filtered[i]))
      {
      }
      FilterThen(filtered, Not(IsInflow), Not(IsOutflow), Uncounted);
    }
  }

  /** No type is both inflow and outflow. */
  lemma InflowNotOutflow(t: Transaction)
    ensures !(IsInflow(t) && IsOutflow(t))
  {
  }

  /** With non-negative amounts both totals are non-negative and the net lies
      between minus the outflow and the inflow. */
  lemma SummaryBounds(filtered: seq<Transaction>)
    requires forall i :: 0 <= i < |filtered| ==> filtered[i].amount >= 0.0
    ensures Summary(filtered).totalInflow >= 0.0 && Summary(filtered).totalOutflow >= 0.0
    ensures -Summary(filtered).totalOutflow <= Summary(filtered).netFlow <= Summary(filtered).totalInflow
  {
    var ins := Filter(filtered, IsInflow);
    var outs := Filter(filtered, IsOutflow);
    forall i | 0 <= i < |ins| ensures Amount(ins[i]) >= 0.0 {
      var j :| 0 <= j < |filtered| && filtered[j] == ins[i];
    }
    forall i | 0 <= i < |outs| ensures Amount(outs[i]) >= 0.0 {
      var j :| 0 <= j < |filtered| && filtered[j] == outs[i];
    }
    SumNonNegative(ins, Amount);
    SumNonNegative(outs, Amount);
  }

  /** The sign printed before an amount. */
  function DisplaySign(t: Transaction): char
  {
    if t.transactionType in ["PAYMENT", "FEE", "INTEREST", "PRINCIPAL"] then '-' else '+'
  }

  /** The amount as printed, sign included. */
  function SignedAmount(t: Transaction): real
  {
    if DisplaySign(t) == '-' then -t.amount else t.amount
  }

  /** The signs agree with the summary: over the transactions the summary
      counts, the printed signed amounts add up to the net flow. */
  lemma NetIsSignedSum(filtered: seq<Transaction>)
    ensures Summary(filtered).netFlow == Sum(Filter(filtered, Counted), SignedAmount)
  {
    var signed := Masked(Counted, SignedAmount);
    var inflow := Masked(IsInflow, Amount);
    var outflow := Masked(IsOutflow, Amount);
    forall i | 0 <= i < |filtered|
      ensures signed(filtered[i]) == inflow(filtered[i]) - outflow(filtered[i])
    {
      SignedIsMaskedDifference(filtered[i]);
    }
    SumPointwise(filtered, signed, inflow, outflow);
    SumFilterMasked(filtered, IsInflow, Amount);
    SumFilterMasked(filtered, IsOutflow, Amount);
    SumFilterMasked(filtered, Counted, SignedAmount);
  }

  lemma SignedIsMaskedDifference(t: Transaction)
    ensures Masked(Counted, SignedAmount)(t) == Masked(IsInflow, Amount)(t) - Masked(IsOutflow, Amount)(t)
  {
    assert Masked(Counted, SignedAmount)(t) == if Counted(t) then SignedAmount(t) else 0.0;
    assert Masked(IsInflow, Amount)(t) == if IsInflow(t) then Amount(t) else 0.0;
    assert Masked(IsOutflow, Amount)(t) == if IsOutflow(t) then Amount(t) else 0.0;
    assert DisplaySign(t) == '-' <==> IsOutflow(t);
    assert !(IsInflow(t) && IsOutflow(t));
  }

  /** The amounts printed in green (by `getTransactionTypeColor`) are exactly
      those counted as inflow. */
  lemma GreenIsInflow(t: Transaction)
    ensures Utils.TransactionTypeColor(t.transactionType) == "text-green-600" <==> IsInflow(t)
  {
  }
}
