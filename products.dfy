/** `filterAndSortDeals` and the per-product summary cards of the products page. */
module Products {
  import opened Seqs
  import opened Sorting
  import opened Deals

  function StatusIs(code: string): Deal -> bool { (d: Deal) => d.status.Code() == code }
  function ProductIs(code: string): Deal -> bool { (d: Deal) => d.productType.Code() == code }

  function ByPrincipalDesc(d: Deal): real { -d.principalAmount }
  function ByBalanceDesc(d: Deal): real { -d.remainingBalance }
  function ByRateDesc(d: Deal): real { -d.interestRate }
  function ByOriginationDesc(d: Deal): real { -(d.originationDate as real) }
  function ByMaturity(d: Deal): real { d.maturityDate as real }
  function Unordered(d: Deal): real { 0.0 }

  /** The comparator of the sort, as a key: `(a, b) => key(a) - key(b)`.
      Money, rate and origination date sort descending (negated key),
      maturity date ascending, and any other `sortBy` compares equal. */
  function SortKey(sortBy: string): Deal -> real
  {
    if sortBy == "principalAmount" then ByPrincipalDesc
    else if sortBy == "remainingBalance" then ByBalanceDesc
    else if sortBy == "interestRate" then ByRateDesc
    else if sortBy == "originationDate" then ByOriginationDesc
    else if sortBy == "maturityDate" then ByMaturity
    else Unordered
  }

  predicate KnownSortKey(sortBy: string)
  {
    sortBy in ["principalAmount", "remainingBalance", "interestRate", "originationDate", "maturityDate"]
  }

  /** The deals left after the status and product filters, each applied only when not "all". */
  function Filtered(deals: seq<Deal>, filterStatus: string, filterProduct: string): seq<Deal>
  {
    var byStatus := if filterStatus != "all" then Filter(deals, StatusIs(filterStatus)) else deals;
    if filterProduct != "all" then Filter(byStatus, ProductIs(filterProduct)) else byStatus
  }

  /** Active deals first, each group in the order of the sort. */
  function ActiveFirst(sorted: seq<Deal>): seq<Deal>
  {
    Filter(sorted, IsActive) + Filter(sorted, Not(IsActive))
  }

  function FilterAndSort(deals: seq<Deal>, filterStatus: string, filterProduct: string, sortBy: string): seq<Deal>
  {
    ActiveFirst(Sort(Filtered(deals, filterStatus, filterProduct), SortKey(sortBy)))
  }

  /** `filterAndSortDeals`: copies the deals into a fresh array, narrows it by the
      two filters, sorts that array in place and partitions it. The input array is
      not in the modifies frame, so it is left untouched. */
  method FilterAndSortDeals(deals: array<Deal>, filterStatus: string, filterProduct: string, sortBy: string)
    returns (result: seq<Deal>)
    ensures result == FilterAndSort(deals[..], filterStatus, filterProduct, sortBy)
  {
    var filtered := deals[..];
    if filterStatus != "all" {
      filtered := Filter(filtered, StatusIs(filterStatus));
    }
    if filterProduct != "all" {
      filtered := Filter(filtered, ProductIs(filterProduct));
    }
    var work := new Deal[|filtered|](i requires 0 <= i < |filtered| => filtered[i]);
    assert work[..] == filtered;
    SortInPlace(work, SortKey(sortBy));
    var activeDeals := Filter(work[..], IsActive);
    var closedDeals := Filter(work[..], Not(IsActive));
    result := activeDeals + closedDeals;
  }

  predicate PassesFilters(filterStatus: string, filterProduct: string, d: Deal)
  {
    (filterStatus != "all" ==> d.status.Code() == filterStatus) &&
    (filterProduct != "all" ==> d.productType.Code() == filterProduct)
  }

  lemma FilteredPasses(deals: seq<Deal>, filterStatus: string, filterProduct: string)
    ensures forall i :: 0 <= i < |Filtered(deals, filterStatus, filterProduct)| ==>
              PassesFilters(filterStatus, filterProduct, Filtered(deals, filterStatus, filterProduct)[i])
  {
    var byStatus := if filterStatus != "all" then Filter(deals, StatusIs(filterStatus)) else deals;
    var f := Filtered(deals, filterStatus, filterProduct);
    forall i | 0 <= i < |f| ensures PassesFilters(filterStatus, filterProduct, f[i]) {
      assert f[i] in byStatus;
    }
  }

  /** Every deal shown passes both filters that are set. */
  lemma ResultMatchesFilters(deals: seq<Deal>, filterStatus: string, filterProduct: string, sortBy: string)
    ensures forall i :: 0 <= i < |FilterAndSort(deals, filterStatus, filterProduct, sortBy)| ==>
              PassesFilters(filterStatus, filterProduct, FilterAndSort(deals, filterStatus, filterProduct, sortBy)[i])
  {
    ResultPermutesFiltered(deals, filterStatus, filterProduct, sortBy);
    FilteredPasses(deals, filterStatus, filterProduct);
    PermutationCarries(FilterAndSort(deals, filterStatus, filterProduct, sortBy),
                       Filtered(deals, filterStatus, filterProduct),
                       d => PassesFilters(filterStatus, filterProduct, d));
  }

  lemma ActiveFirstPermutes(s: seq<Deal>)
    ensures multiset(ActiveFirst(s)) == multiset(s)
  {
    FilterPartitionMultiset(s, IsActive);
  }

  /** Nothing is dropped or duplicated: the page shows a permutation of the
      filtered deals, and with both filters "all" a permutation of all deals. */
  lemma ResultPermutesFiltered(deals: seq<Deal>, filterStatus: string, filterProduct: string, sortBy: string)
    ensures multiset(FilterAndSort(deals, filterStatus, filterProduct, sortBy))
         == multiset(Filtered(deals, filterStatus, filterProduct))
    ensures filterStatus == "all" && filterProduct == "all" ==>
              multiset(FilterAndSort(deals, filterStatus, filterProduct, sortBy)) == multiset(deals)
  {
    var f := Filtered(deals, filterStatus, filterProduct);
    SortPermutes(f, SortKey(sortBy));
    ActiveFirstPermutes(Sort(f, SortKey(sortBy)));
  }

  /** Every active deal precedes every other deal, whatever the sort key. */
  lemma ActiveBeforeOthers(deals: seq<Deal>, filterStatus: string, filterProduct: string, sortBy: string)
    ensures var r := FilterAndSort(deals, filterStatus, filterProduct, sortBy);
            forall i, j :: 0 <= i < j < |r| && IsActive(r[j]) ==> IsActive(r[i])
  {
    PartitionOrder(Sort(Filtered(deals, filterStatus, filterProduct), SortKey(sortBy)), IsActive);
  }

  /** Within the active group and within the other group the deals are in sort order. */
  lemma GroupsSorted(deals: seq<Deal>, filterStatus: string, filterProduct: string, sortBy: string)
    ensures var r := FilterAndSort(deals, filterStatus, filterProduct, sortBy);
            forall i, j :: 0 <= i < j < |r| && IsActive(r[i]) == IsActive(r[j]) ==>
              SortKey(sortBy)(r[i]) <= SortKey(sortBy)(r[j])
  {
    var f := Filtered(deals, filterStatus, filterProduct);
    SortSorted(f, SortKey(sortBy));
    ActiveFirstSorted(Sort(f, SortKey(sortBy)), SortKey(sortBy));
  }

  lemma ActiveFirstSorted(sorted: seq<Deal>, key: Deal -> real)
    requires SortedBy(sorted, key)
    ensures var r := ActiveFirst(sorted);
            forall i, j :: 0 <= i < j < |r| && IsActive(r[i]) == IsActive(r[j]) ==> key(r[i]) <= key(r[j])
  {
    var r := ActiveFirst(sorted);
    forall i, j | 0 <= i < j < |r| && IsActive(r[i]) == IsActive(r[j])
      ensures key(r[i]) <= key(r[j])
    {
      ActivePairSorted(sorted, key, i, j);
    }
  }

  lemma ActivePairSorted(sorted: seq<Deal>, key: Deal -> real, i: int, j: int)
    requires SortedBy(sorted, key)
    requires 0 <= i < j < |ActiveFirst(sorted)|
    requires IsActive(ActiveFirst(sorted)[i]) == IsActive(ActiveFirst(sorted)[j])
    ensures key(ActiveFirst(sorted)[i]) <= key(ActiveFirst(sorted)[j])
  {
    var act := Filter(sorted, IsActive);
    var rest := Filter(sorted, Not(IsActive));
    var r := act + rest;
    assert ActiveFirst(sorted) == r;
    FilterSorted(sorted, IsActive, key);
    FilterSorted(sorted, Not(IsActive), key);
    if j < |act| {
      assert r[i] == act[i] && r[j] == act[j];
    } else if i >= |act| {
      assert r[i] == rest[i - |act|] && r[j] == rest[j - |act|];
    } else {
      assert false;
    }
  }

  /** What the key order means for each sort option. */
  lemma SortKeyMeaning(sortBy: string, a: Deal, b: Deal)
    ensures sortBy == "principalAmount" ==> (SortKey(sortBy)(a) <= SortKey(sortBy)(b) <==> a.principalAmount >= b.principalAmount)
    ensures sortBy == "remainingBalance" ==> (SortKey(sortBy)(a) <= SortKey(sortBy)(b) <==> a.remainingBalance >= b.remainingBalance)
    ensures sortBy == "interestRate" ==> (SortKey(sortBy)(a) <= SortKey(sortBy)(b) <==> a.interestRate >= b.interestRate)
    ensures sortBy == "originationDate" ==> (SortKey(sortBy)(a) <= SortKey(sortBy)(b) <==> a.originationDate >= b.originationDate)
    ensures sortBy == "maturityDate" ==> (SortKey(sortBy)(a) <= SortKey(sortBy)(b) <==> a.maturityDate <= b.maturityDate)
    ensures !KnownSortKey(sortBy) ==> SortKey(sortBy)(a) == SortKey(sortBy)(b)
  {
  }

  /** An unrecognised `sortBy` makes every comparison 0; the stable sort then
      keeps the filtered order and only the active-first partition moves deals. */
  lemma UnknownSortKeepsOrder(deals: seq<Deal>, filterStatus: string, filterProduct: string, sortBy: string)
    requires !KnownSortKey(sortBy)
    ensures FilterAndSort(deals, filterStatus, filterProduct, sortBy)
         == ActiveFirst(Filtered(deals, filterStatus, filterProduct))
  {
    var f := Filtered(deals, filterStatus, filterProduct);
    assert SortKey(sortBy) == Unordered by {
      UnknownSortKey(sortBy);
    }
    SortConstantKey(f, Unordered, 0.0);
  }

  lemma UnknownSortKey(sortBy: string)
    requires !KnownSortKey(sortBy)
    ensures SortKey(sortBy) == Unordered
  {
  }

  /** Sorted by maturity date, unfiltered, the seed deals appear as the five active
      deals from CF240004 (2027-05-25) to CF240001 (2029-07-14), then the closed
      CF230002 and the paid-off CF230001. */
  lemma SeedByMaturity()
    ensures var r := FilterAndSort(SeedDeals(), "all", "all", "maturityDate");
            |r| == 7 &&
            r[0].dealNumber == "CF240004" && r[1].dealNumber == "CF240003" &&
            r[2].dealNumber == "CF240002" && r[3].dealNumber == "CF240005" &&
            r[4].dealNumber == "CF240001" &&
            r[5].dealNumber == "CF230002" && r[6].dealNumber == "CF230001"
  {
    var s := SeedDeals();
    SeedByMaturityOrder();
    assert s[3].dealNumber == "CF240004" && s[2].dealNumber == "CF240003";
    assert s[1].dealNumber == "CF240002" && s[4].dealNumber == "CF240005";
    assert s[0].dealNumber == "CF240001";
    assert s[6].dealNumber == "CF230002" && s[5].dealNumber == "CF230001";
  }

  lemma SeedByMaturityOrder()
    ensures var s := SeedDeals();
            FilterAndSort(s, "all", "all", "maturityDate") == [s[3], s[2], s[1], s[4], s[0], s[6], s[5]]
  {
    SeedMaturityFacts();
    var s := SeedDeals();
    OrderedByMaturity(s);
  }

  /** The seed's maturity order and active flags, as the lemma below needs them. */
  lemma SeedMaturityFacts()
    ensures var s := SeedDeals();
            |s| == 7
            && s[6].maturityDate < s[5].maturityDate < s[3].maturityDate < s[2].maturityDate
            && s[2].maturityDate < s[1].maturityDate < s[4].maturityDate < s[0].maturityDate
            && !IsActive(s[6]) && !IsActive(s[5])
            && IsActive(s[3]) && IsActive(s[2]) && IsActive(s[1]) && IsActive(s[4]) && IsActive(s[0])
  {
  }

  /** Seven deals with the seed's maturity order and active flags come out of the
      maturity sort as the five active ones followed by the two closed ones. */
  lemma OrderedByMaturity(s: seq<Deal>)
    requires |s| == 7
    requires s[6].maturityDate < s[5].maturityDate < s[3].maturityDate < s[2].maturityDate
    requires s[2].maturityDate < s[1].maturityDate < s[4].maturityDate < s[0].maturityDate
    requires !IsActive(s[6]) && !IsActive(s[5])
    requires IsActive(s[3]) && IsActive(s[2]) && IsActive(s[1]) && IsActive(s[4]) && IsActive(s[0])
    ensures FilterAndSort(s, "all", "all", "maturityDate") == [s[3], s[2], s[1], s[4], s[0], s[6], s[5]]
  {
    assert Filtered(s, "all", "all") == s;
    assert SortKey("maturityDate") == ByMaturity;
    assert Sort(s, ByMaturity) == [s[6], s[5]] + [s[3], s[2], s[1], s[4], s[0]] by {
      assert s == [s[0], s[1], s[2], s[3], s[4], s[5], s[6]];
      SortSevenByMaturity(s[0], s[1], s[2], s[3], s[4], s[5], s[6]);
    }
    ActiveFirstOfBlocks([s[6], s[5]], [s[3], s[2], s[1], s[4], s[0]]);
  }

  lemma ActiveFirstOfBlocks(closed: seq<Deal>, open: seq<Deal>)
    requires forall i :: 0 <= i < |closed| ==> !IsActive(closed[i])
    requires forall i :: 0 <= i < |open| ==> IsActive(open[i])
    ensures ActiveFirst(closed + open) == open + closed
  {
    assert Filter(closed + open, IsActive) == open by {
      FilterAppend(closed, open, IsActive);
      FilterDropsAll(closed, IsActive);
      FilterKeepsAll(open, IsActive);
      assert [] + open == open;
    }
    assert Filter(closed + open, Not(IsActive)) == closed by {
      FilterAppend(closed, open, Not(IsActive));
      FilterKeepsAll(closed, Not(IsActive));
      FilterDropsAll(open, Not(IsActive));
      assert closed + [] == closed;
    }
  }

  /** The insertion steps for seven deals whose maturities are ordered as the seed's. */
  lemma SortSevenByMaturity(d0: Deal, d1: Deal, d2: Deal, d3: Deal, d4: Deal, d5: Deal, d6: Deal)
    requires d6.maturityDate < d5.maturityDate < d3.maturityDate < d2.maturityDate
    requires d2.maturityDate < d1.maturityDate < d4.maturityDate < d0.maturityDate
    ensures Sort([d0, d1, d2, d3, d4, d5, d6], ByMaturity) == [d6, d5, d3, d2, d1, d4, d0]
  {
    var k := ByMaturity;
    SortSixByMaturity(d0, d1, d2, d3, d4, d5);
    SortSnoc([d0, d1, d2, d3, d4, d5], d6, k);
    InsertBetween([], [d5, d3, d2, d1, d4, d0], [d5, d3, d2, d1, d4, d0], d6, k);
    assert [d0, d1, d2, d3, d4, d5] + [d6] == [d0, d1, d2, d3, d4, d5, d6];
  }

  lemma SortSixByMaturity(d0: Deal, d1: Deal, d2: Deal, d3: Deal, d4: Deal, d5: Deal)
    requires d5.maturityDate < d3.maturityDate < d2.maturityDate
    requires d2.maturityDate < d1.maturityDate < d4.maturityDate < d0.maturityDate
    ensures Sort([d0, d1, d2, d3, d4, d5], ByMaturity) == [d5, d3, d2, d1, d4, d0]
  {
    var k := ByMaturity;
    SortFiveByMaturity(d0, d1, d2, d3, d4);
    SortSnoc([d0, d1, d2, d3, d4], d5, k);
    InsertBetween([], [d3, d2, d1, d4, d0], [d3, d2, d1, d4, d0], d5, k);
    assert [d0, d1, d2, d3, d4] + [d5] == [d0, d1, d2, d3, d4, d5];
  }

  lemma SortFiveByMaturity(d0: Deal, d1: Deal, d2: Deal, d3: Deal, d4: Deal)
    requires d3.maturityDate < d2.maturityDate < d1.maturityDate < d4.maturityDate < d0.maturityDate
    ensures Sort([d0, d1, d2, d3, d4], ByMaturity) == [d3, d2, d1, d4, d0]
  {
    var k := ByMaturity;
    SortFourByMaturity(d0, d1, d2, d3);
    SortSnoc([d0, d1, d2, d3], d4, k);
    InsertBetween([d3, d2, d1], [d0], [d3, d2, d1, d0], d4, k);
    assert [d0, d1, d2, d3] + [d4] == [d0, d1, d2, d3, d4];
  }

  lemma SortFourByMaturity(d0: Deal, d1: Deal, d2: Deal, d3: Deal)
    requires d3.maturityDate < d2.maturityDate < d1.maturityDate < d0.maturityDate
    ensures Sort([d0, d1, d2, d3], ByMaturity) == [d3, d2, d1, d0]
  {
    SortThreeByMaturity(d0, d1, d2);
    SortSnocFirst([d0, d1, d2], d3, ByMaturity);
    assert [d0, d1, d2] + [d3] == [d0, d1, d2, d3];
  }

  lemma SortThreeByMaturity(d0: Deal, d1: Deal, d2: Deal)
    requires d2.maturityDate < d1.maturityDate < d0.maturityDate
    ensures Sort([d0, d1, d2], ByMaturity) == [d2, d1, d0]
  {
    SortTwoByMaturity(d0, d1);
    SortSnocFirst([d0, d1], d2, ByMaturity);
    assert [d0, d1] + [d2] == [d0, d1, d2];
  }

  lemma SortTwoByMaturity(d0: Deal, d1: Deal)
    requires d1.maturityDate < d0.maturityDate
    ensures Sort([d0, d1], ByMaturity) == [d1, d0]
  {
    SortPair(d0, d1, ByMaturity);
  }

  /** The three summary cards: per-product count and one total each. */
  datatype SummaryCards = SummaryCards(
    creditLines: nat, creditAvailable: real,
    equipmentDeals: nat, equipmentFinanced: real,
    termLoans: nat, termOutstanding: real)


  function Summary(deals: seq<Deal>): SummaryCards
  {
    SummaryCards(
      |Filter(deals, ProductIs("LINE_OF_CREDIT"))|,
      Sum(Filter(deals, Both(ProductIs("LINE_OF_CREDIT"), IsActive)), Principal),
      |Filter(deals, ProductIs("EQUIPMENT_FINANCE"))|,
      Sum(Filter(deals, ProductIs("EQUIPMENT_FINANCE")), Principal),
      |Filter(deals, ProductIs("TERM_LOAN"))|,
      Sum(Filter(deals, Both(ProductIs("TERM_LOAN"), IsActive)), Balance))
  }

  /** The line-of-credit card counts every status but its "Total Available" is the
      active part only: adding the principal of the non-active lines of credit
      gives the principal of all of them. The term-loan "Outstanding" likewise
      covers active term loans only, while "Total Financed" is the principal
      of active and non-active equipment deals together. */
  lemma SummaryActiveParts(deals: seq<Deal>)
    ensures Summary(deals).creditAvailable
            + Sum(Filter(Filter(deals, ProductIs("LINE_OF_CREDIT")), Not(IsActive)), Principal)
         == Sum(Filter(deals, ProductIs("LINE_OF_CREDIT")), Principal)
    ensures Summary(deals).termOutstanding
            + Sum(Filter(Filter(deals, ProductIs("TERM_LOAN")), Not(IsActive)), Balance)
         == Sum(Filter(deals, ProductIs("TERM_LOAN")), Balance)
    ensures Summary(deals).equipmentFinanced
         == Sum(Filter(Filter(deals, ProductIs("EQUIPMENT_FINANCE")), IsActive), Principal)
            + Sum(Filter(Filter(deals, ProductIs("EQUIPMENT_FINANCE")), Not(IsActive)), Principal)
    ensures Summary(deals).creditLines
         == |Filter(Filter(deals, ProductIs("LINE_OF_CREDIT")), IsActive)|
            + |Filter(Filter(deals, ProductIs("LINE_OF_CREDIT")), Not(IsActive))|
  {
    var loc := Filter(deals, ProductIs("LINE_OF_CREDIT"));
    var term := Filter(deals, ProductIs("TERM_LOAN"));
    FilterFilter(deals, ProductIs("LINE_OF_CREDIT"), IsActive);
    FilterFilter(deals, ProductIs("TERM_LOAN"), IsActive);
    SumSplit(loc, IsActive, Principal);
    SumSplit(term, IsActive, Balance);
    SumSplit(Filter(deals, ProductIs("EQUIPMENT_FINANCE")), IsActive, Principal);
    FilterPartitionMultiset(loc, IsActive);
    assert |multiset(Filter(loc, IsActive))| + |multiset(Filter(loc, Not(IsActive)))| == |multiset(loc)|;
  }

}
