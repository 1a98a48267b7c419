/** The monthly statement rollup of the seed script: for the current month
    and the eleven before it, the transactions dated in that month are split
    into credits and debits and a statement with their totals is emitted. */
module Rollup {
  import opened Seqs
  import opened Statements

  /** A seeded transaction, with the calendar month (1..12) and year of its date. */
  datatype SeedTxn = SeedTxn(transactionType: string, amount: real, year: int, month: int)

  /** `new Date(year, month - 1 - back, 1)`: the Date constructor carries a
      month index outside 0..11 into the year, so the result is the month
      `back` months before `month` of `year`. */
  function MonthsBack(year: int, month: int, back: int): (ym: (int, int))
    requires 1 <= month <= 12
    ensures 1 <= ym.1 <= 12
    ensures ym.0 * 12 + (ym.1 - 1) == year * 12 + (month - 1) - back
  {
    var index := year * 12 + (month - 1) - back;
    (index / 12, index % 12 + 1)
  }

  /** Twelve different months are covered: no two steps of the loop produce
      the same month and year. */
  lemma MonthsBackDistinct(year: int, month: int, i: int, j: int)
    requires 1 <= month <= 12 && i != j
    ensures MonthsBack(year, month, i) != MonthsBack(year, month, j)
  {
  }

  predicate InMonth(year: int, month: int, t: SeedTxn) { t.year == year && t.month == month }

  predicate IsCredit(t: SeedTxn) { t.transactionType in ["DISBURSEMENT", "DEPOSIT", "REFUND"] }

  predicate IsDebit(t: SeedTxn) { t.transactionType in ["PAYMENT", "FEE", "INTEREST", "PRINCIPAL", "WITHDRAWAL"] }

  /** Types counted on neither side, TRANSFER among them. */
  predicate Neither(t: SeedTxn) { !IsCredit(t) && !IsDebit(t) }

  function Amount(t: SeedTxn): real { t.amount }

  function MonthlyTransactions(txns: seq<SeedTxn>, year: int, month: int): seq<SeedTxn>
  {
    Filter(txns, (t: SeedTxn) => InMonth(year, month, t))
  }

  /** The statement of one month, as the loop body builds it. */
  function MonthStatement(txns: seq<SeedTxn>, year: int, month: int): Statement
  {
    var monthly := MonthlyTransactions(txns, year, month);
    var totalCredits := Sum(Filter(monthly, IsCredit), Amount);
    var totalDebits := Sum(Filter(monthly, IsDebit), Amount);
    Statement(month, year, totalCredits, totalDebits, totalCredits - totalDebits)
  }

  /** The statement for the month `back` months before (`curYear`, `curMonth`). */
  function StatementFor(txns: seq<SeedTxn>, curYear: int, curMonth: int, back: int): Statement
    requires 1 <= curMonth <= 12
  {
    var ym := MonthsBack(curYear, curMonth, back);
    MonthStatement(txns, ym.0, ym.1)
  }

  /** The rollup loop. `curMonth` is `currentDate.getMonth() + 1`, always in 1..12.
      The statements come newest first, one per month, each consistent. */
  method StatementRollup(curYear: int, curMonth: int, txns: seq<SeedTxn>) returns (statements: seq<Statement>)
    requires 1 <= curMonth <= 12
    ensures |statements| == 12
    ensures forall i :: 0 <= i < 12 ==> statements[i] == StatementFor(txns, curYear, curMonth, i)
    ensures NetsConsistent(statements)
  {
    statements := [];
    var i := 0;
    while i < 12
      invariant 0 <= i <= 12 && |statements| == i
      invariant forall k :: 0 <= k < i ==> statements[k] == StatementFor(txns, curYear, curMonth, k)
      invariant NetsConsistent(statements)
    {
      var statementDate := MonthsBack(curYear, curMonth, i);
      var month := statementDate.1;
      var year := statementDate.0;
      var monthlyTransactions := Filter(txns, (t: SeedTxn) => InMonth(year, month, t));
      var totalCredits := Sum(Filter(monthlyTransactions, IsCredit), Amount);
      var totalDebits := Sum(Filter(monthlyTransactions, IsDebit), Amount);
      var statement := Statement(month, year, totalCredits, totalDebits, totalCredits - totalDebits);
      assert statement == StatementFor(txns, curYear, curMonth, i);
      AppendStatement(statements, statement);
      statements := statements + [statement];
      i := i + 1;
    }
  }

  /** Appending a consistent statement keeps the list consistent and the
      earlier entries in place. */
  lemma AppendStatement(statements: seq<Statement>, statement: Statement)
    requires NetsConsistent(statements)
    requires statement.netAmount == statement.totalCredits - statement.totalDebits
    ensures NetsConsistent(statements + [statement])
    ensures forall k :: 0 <= k < |statements| ==> (statements + [statement])[k] == statements[k]
    ensures (statements + [statement])[|statements|] == statement
  {
  }

  /** The statements cover the current month and the eleven before it, in that order. */
  lemma RollupMonths(txns: seq<SeedTxn>, curYear: int, curMonth: int, i: int)
    requires 1 <= curMonth <= 12 && 0 <= i < 12
    ensures var s := StatementFor(txns, curYear, curMonth, i);
            1 <= s.month <= 12 && s.year * 12 + (s.month - 1) == curYear * 12 + (curMonth - 1) - i
  {
  }

  /** No type is both a credit and a debit. */
  lemma CreditNotDebit(t: SeedTxn)
    ensures !(IsCredit(t) && IsDebit(t))
  {
  }

  /** Credits, debits and the uncounted types together make up the month's total. */
  lemma MonthConserves(txns: seq<SeedTxn>, year: int, month: int)
    ensures MonthStatement(txns, year, month).totalCredits + MonthStatement(txns, year, month).totalDebits
            + Sum(Filter(MonthlyTransactions(txns, year, month), Neither), Amount)
         == Sum(MonthlyTransactions(txns, year, month), Amount)
  {
    var monthly := MonthlyTransactions(txns, year, month);
    var rest := Filter(monthly, Not(IsCredit));
    assert Sum(Filter(monthly, IsCredit), Amount) + Sum(rest, Amount) == Sum(monthly, Amount) by {
      SumSplit(monthly, IsCredit, Amount);
    }
    assert Sum(Filter(rest, IsDebit), Amount) + Sum(Filter(rest, Not(IsDebit)), Amount)
        == Sum(rest, Amount) by {
      SumSplit(rest, IsDebit, Amount);
    }
    assert Filter(rest, IsDebit) == Filter(monthly, IsDebit) by {
      forall i | 0 <= i < |monthly|
        ensures IsDebit(monthly[i]) == (Not(IsCredit)(monthly[i]) && IsDebit(monthly[i]))
      {
        CreditNotDebit(monthly[i]);
      }
      FilterThen(monthly, Not(IsCredit), IsDebit, IsDebit);
    }
    assert Filter(rest, Not(IsDebit)) == Filter(monthly, Neither) by {
      forall i | 0 <= i < |monthly|
        ensures Neither(monthly[i]) == (Not(IsCredit)(monthly[i]) && Not(IsDebit)(monthly[i]))
      {
      }
      FilterThen(monthly, Not(IsCredit), Not(IsDebit), Neither);
    }
  }

  /** A transaction of a type counted on neither side (a TRANSFER, say), or
      dated in another month, leaves the month's statement unchanged. */
  lemma IgnoredTransaction(txns: seq<SeedTxn>, year: int, month: int, t: SeedTxn)
    requires Neither(t) || !InMonth(year, month, t)
    ensures MonthStatement(txns + [t], year, month) == MonthStatement(txns, year, month)
  {
    var inMonth := (x: SeedTxn) => InMonth(year, month, x);
    FilterAppend(txns, [t], inMonth);
    var monthly := MonthlyTransactions(txns, year, month);
    if InMonth(year, month, t) {
      assert MonthlyTransactions(txns + [t], year, month) == monthly + [t];
      FilterAppend(monthly, [t], IsCredit);
      FilterAppend(monthly, [t], IsDebit);
      assert Filter(monthly + [t], IsCredit) == Filter(monthly, IsCredit);
      assert Filter(monthly + [t], IsDebit) == Filter(monthly, IsDebit);
    } else {
      assert MonthlyTransactions(txns + [t], year, month) == monthly;
    }
  }

  /** A credit dated in the month raises that month's credits and net by its
      amount and leaves its debits alone. */
  lemma CreditRaisesNet(txns: seq<SeedTxn>, year: int, month: int, t: SeedTxn)
    requires IsCredit(t) && InMonth(year, month, t)
    ensures MonthStatement(txns + [t], year, month).totalCredits
         == MonthStatement(txns, year, month).totalCredits + t.amount
    ensures MonthStatement(txns + [t], year, month).totalDebits
         == MonthStatement(txns, year, month).totalDebits
    ensures MonthStatement(txns + [t], year, month).netAmount
         == MonthStatement(txns, year, month).netAmount + t.amount
  {
    var monthly := MonthlyTransactions(txns, year, month);
    assert MonthlyTransactions(txns + [t], year, month) == monthly + [t] by {
      FilterAppend(txns, [t], (x: SeedTxn) => InMonth(year, month, x));
    }
    assert Filter(monthly + [t], IsCredit) == Filter(monthly, IsCredit) + [t] by {
      FilterAppend(monthly, [t], IsCredit);
    }
    assert Filter(monthly + [t], IsDebit) == Filter(monthly, IsDebit) by {
      FilterAppend(monthly, [t], IsDebit);
      CreditNotDebit(t);
    }
    assert Sum(Filter(monthly, IsCredit) + [t], Amount) == Sum(Filter(monthly, IsCredit), Amount) + t.amount by {
      SumAppend(Filter(monthly, IsCredit), [t], Amount);
    }
  }
}
