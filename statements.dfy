/** The statements page: `filterStatements`, `calculateSummary`,
    `getAvailableYears` and `getMonthName`. */
module Statements {
  import opened Wrappers
  import opened Seqs
  import opened Sorting
  import opened Text

  datatype Statement = Statement(
    month: int,
    year: int,
    totalCredits: real,
    totalDebits: real,
    netAmount: real)

  /** A drop-down counts as chosen unless it is empty (before the
      initial month and year are set) or "all". */
  predicate IsChosen(selected: string) { selected != "" && selected != "all" }

  /** `stmt.month === parseInt(selectedMonth)`; `NaN` equals no month. */
  predicate MonthPasses(selectedMonth: string, s: Statement)
  {
    IsChosen(selectedMonth) ==> ParseInt(selectedMonth) == Some(s.month)
  }

  predicate YearPasses(selectedYear: string, s: Statement)
  {
    IsChosen(selectedYear) ==> ParseInt(selectedYear) == Some(s.year)
  }

  /** The term occurs in the decimal text of the month or of the year. */
  predicate TermPasses(searchTerm: string, s: Statement)
  {
    searchTerm != "" ==>
      Includes(IntToString(s.month), searchTerm) || Includes(IntToString(s.year), searchTerm)
  }

  /** Reference definition of the list: a statement is shown iff it passes
      every control that is set. */
  predicate StatementShown(selectedMonth: string, selectedYear: string, searchTerm: string, s: Statement)
  {
    MonthPasses(selectedMonth, s) && YearPasses(selectedYear, s) && TermPasses(searchTerm, s)
  }

  /** `filterStatements`: a copy of all statements narrowed by each control
      that is set. The result is the single-pass filter by `StatementShown`. */
  method FilterStatements(statements: seq<Statement>, selectedMonth: string, selectedYear: string, searchTerm: string)
    returns (filtered: seq<Statement>)
    ensures filtered == Filter(statements, (s: Statement) => StatementShown(selectedMonth, selectedYear, searchTerm, s))
  {
    ghost var byMonth := (s: Statement) => MonthPasses(selectedMonth, s);
    ghost var byYear := (s: Statement) => MonthPasses(selectedMonth, s) && YearPasses(selectedYear, s);
    ghost var shown := (s: Statement) => StatementShown(selectedMonth, selectedYear, searchTerm, s);

    filtered := statements;

    if selectedMonth != "" && selectedMonth != "all" {
      var ofMonth := (s: Statement) => Some(s.month) == ParseInt(selectedMonth);
      FilterCongruent(statements, ofMonth, byMonth);
      filtered := Filter(filtered, ofMonth);
    } else {
      FilterKeepsAll(statements, byMonth);
    }
    assert filtered == Filter(statements, byMonth);

    if selectedYear != "" && selectedYear != "all" {
      var ofYear := (s: Statement) => Some(s.year) == ParseInt(selectedYear);
      FilterThen(statements, byMonth, ofYear, byYear);
      filtered := Filter(filtered, ofYear);
    } else {
      FilterCongruent(statements, byMonth, byYear);
    }
    assert filtered == Filter(statements, byYear);

    if searchTerm != "" {
      var matching := (s: Statement) =>
        Includes(IntToString(s.month), searchTerm) || Includes(IntToString(s.year), searchTerm);
      FilterThen(statements, byYear, matching, shown);
      filtered := Filter(filtered, matching);
    } else {
      FilterCongruent(statements, byYear, shown);
    }
  }

  /** The list keeps the input order, and a statement is listed iff it is in
      the input and passes every control that is set. */
  lemma StatementListedIff(statements: seq<Statement>, selectedMonth: string, selectedYear: string,
                           searchTerm: string, s: Statement)
    ensures IsSubsequence(Filter(statements, (x: Statement) => StatementShown(selectedMonth, selectedYear, searchTerm, x)), statements)
    ensures s in Filter(statements, (x: Statement) => StatementShown(selectedMonth, selectedYear, searchTerm, x))
            <==> s in statements && StatementShown(selectedMonth, selectedYear, searchTerm, s)
  {
    var p := (x: Statement) => StatementShown(selectedMonth, selectedYear, searchTerm, x);
    var r := Filter(statements, p);
    FilterIsSubsequence(statements, p);
    if s in r {
      var i :| 0 <= i < |r| && r[i] == s;
    }
    if s in statements && p(s) {
      var i :| 0 <= i < |statements| && statements[i] == s;
    }
  }

  /** The month and year drop-downs hold `toString()` of a number, and what
      the filter parses back is that number: choosing month `m` and year `y`
      (the page's initial state is the current month and year) shows exactly
      the statements of that month and year. */
  lemma ChosenMonthAndYear(m: int, y: int, s: Statement)
    ensures StatementShown(IntToString(m), IntToString(y), "", s) <==> s.month == m && s.year == y
  {
    ParseIntToString(m);
    ParseIntToString(y);
    NotChosenWord(m);
    NotChosenWord(y);
  }

  /** The text of a number is never empty nor "all". */
  lemma NotChosenWord(n: int)
    ensures IsChosen(IntToString(n))
  {
    var d := NatToString(if n < 0 then -n else n);
    assert IsDigit(d[0]);
    if n >= 0 {
      assert IntToString(n)[0] == d[0];
    }
  }

  /** With both drop-downs on "all" (or not yet set) and no search term every
      statement is listed, in order. */
  lemma NothingChosenListsAll(statements: seq<Statement>, selectedMonth: string, selectedYear: string)
    requires !IsChosen(selectedMonth) && !IsChosen(selectedYear)
    ensures Filter(statements, (x: Statement) => StatementShown(selectedMonth, selectedYear, "", x)) == statements
  {
    FilterKeepsAll(statements, (x: Statement) => StatementShown(selectedMonth, selectedYear, "", x));
  }

  /** A chosen value that is not a number, such as "x", lists nothing. */
  lemma UnparsableMonthListsNothing(statements: seq<Statement>, selectedMonth: string,
                                    selectedYear: string, searchTerm: string)
    requires IsChosen(selectedMonth) && ParseInt(selectedMonth) == None
    ensures Filter(statements, (x: Statement) => StatementShown(selectedMonth, selectedYear, searchTerm, x)) == []
  {
    FilterDropsAll(statements, (x: Statement) => StatementShown(selectedMonth, selectedYear, searchTerm, x));
  }

  datatype StatementSummary = StatementSummary(totalCredits: real, totalDebits: real, netAmount: real)

  function Credits(s: Statement): real { s.totalCredits }
  function Debits(s: Statement): real { s.totalDebits }
  function Net(s: Statement): real { s.netAmount }

  /** `calculateSummary` over the listed statements. */
  function Summary(filtered: seq<Statement>): (r: StatementSummary)
    ensures |filtered| == 0 ==> r == StatementSummary(0.0, 0.0, 0.0)
  {
    var totalCredits := Sum(filtered, Credits);
    var totalDebits := Sum(filtered, Debits);
    StatementSummary(totalCredits, totalDebits, totalCredits - totalDebits)
  }

  /** Every statement's net is its credits minus its debits, as the seed
      script writes them. */
  predicate NetsConsistent(statements: seq<Statement>)
  {
    forall i :: 0 <= i < |statements| ==> statements[i].netAmount == statements[i].totalCredits - statements[i].totalDebits
  }

  /** When each statement's net is consistent, the summary's net is the sum of
      the statements' nets. */
  lemma SummaryNetIsSumOfNets(filtered: seq<Statement>)
    requires NetsConsistent(filtered)
    ensures Summary(filtered).netAmount == Sum(filtered, Net)
  {
    SumPointwise(filtered, Net, Credits, Debits);
  }

  /** Totals over consecutive parts of the list add up. */
  lemma SummaryAppend(a: seq<Statement>, b: seq<Statement>)
    ensures Summary(a + b).totalCredits == Summary(a).totalCredits + Summary(b).totalCredits
    ensures Summary(a + b).totalDebits == Summary(a).totalDebits + Summary(b).totalDebits
    ensures Summary(a + b).netAmount == Summary(a).netAmount + Summary(b).netAmount
  {
    SumAppend(a, b, Credits);
    SumAppend(a, b, Debits);
  }

  function Years(statements: seq<Statement>): (ys: seq<int>)
    ensures |ys| == |statements|
    ensures forall i :: 0 <= i < |statements| ==> ys[i] == statements[i].year
  {
    seq(|statements|, i requires 0 <= i < |statements| => statements[i].year)
  }

  function Descending(y: int): real { -(y as real) }

  /** `getAvailableYears`: the distinct years, then `sort((a, b) => b - a)`. */
  function AvailableYears(statements: seq<Statement>): seq<int>
  {
    Sort(Dedupe(Years(statements)), Descending)
  }

  /** The year drop-down lists every year that has a statement and no other,
      each once, newest first. */
  lemma AvailableYearsSpec(statements: seq<Statement>)
    ensures var ys := AvailableYears(statements);
            (forall i, j :: 0 <= i < j < |ys| ==> ys[i] > ys[j])
            && (forall i :: 0 <= i < |ys| ==> exists k :: 0 <= k < |statements| && statements[k].year == ys[i])
            && (forall k :: 0 <= k < |statements| ==> statements[k].year in ys)
  {
    var ys := AvailableYears(statements);
    SortedDistinctYears(Years(statements));
    forall i | 0 <= i < |ys| ensures exists k :: 0 <= k < |statements| && statements[k].year == ys[i] {
      var k :| 0 <= k < |statements| && Years(statements)[k] == ys[i];
    }
    forall k | 0 <= k < |statements| ensures statements[k].year in ys {
      assert Years(statements)[k] in ys;
    }
  }

  /** Deduplicating and sorting newest first leaves each value of `xs` once,
      in strictly descending order. */
  lemma SortedDistinctYears(xs: seq<int>)
    ensures var ys := Sort(Dedupe(xs), Descending);
            (forall i, j :: 0 <= i < j < |ys| ==> ys[i] > ys[j])
            && (forall i :: 0 <= i < |ys| ==> ys[i] in xs)
            && (forall k :: 0 <= k < |xs| ==> xs[k] in ys)
  {
    var d := Dedupe(xs);
    var ys := Sort(d, Descending);
    SortPermutes(d, Descending);
    StrictlyDescending(d);
    forall i | 0 <= i < |ys| ensures ys[i] in xs {
      assert ys[i] in multiset(d);
    }
    forall k | 0 <= k < |xs| ensures xs[k] in ys {
      assert xs[k] in multiset(ys);
    }
  }

  /** Distinct years sorted newest first are strictly descending. */
  lemma StrictlyDescending(d: seq<int>)
    requires Distinct(d)
    ensures var ys := Sort(d, Descending);
            forall i, j :: 0 <= i < j < |ys| ==> ys[i] > ys[j]
  {
    var ys := Sort(d, Descending);
    SortSorted(d, Descending);
    SortPermutes(d, Descending);
    PermutationDistinct(ys, d);
    forall i, j | 0 <= i < j < |ys| ensures ys[i] > ys[j] {
      assert Descending(ys[i]) <= Descending(ys[j]);
    }
  }

  const MonthNames: seq<string> := [
    "January", "February", "March", "April", "May", "June",
    "July", "August", "September", "October", "November", "December"]

  /** `getMonthName`: `months[month - 1]`, which is `undefined` (here `None`)
      outside 1..12. */
  function MonthName(month: int): (name: Option<string>)
    ensures name.Some? <==> 1 <= month <= 12
    ensures month == 1 ==> name == Some("January")
    ensures month == 12 ==> name == Some("December")
  {
    if 1 <= month <= 12 then Some(MonthNames[month - 1]) else None
  }

  /** Different months have different names. */
  lemma MonthNameInjective(m: int, n: int)
    requires 1 <= m <= 12 && 1 <= n <= 12 && m != n
    ensures MonthName(m) != MonthName(n)
  {
    assert forall i, j :: 0 <= i < j < 12 ==> MonthNames[i] != MonthNames[j];
  }
}
