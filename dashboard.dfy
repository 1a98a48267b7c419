/** The metrics computed by `GET /api/dashboard`: sums over the active deals
    and the three earliest upcoming payments. The database query is replaced
    by the user's deal list; the session by the optional user id. */
module Dashboard {
  import opened Wrappers
  import opened Seqs
  import opened Sorting
  import opened Deals

  datatype DashboardData = DashboardData(
    totalBalance: real,
    totalCredit: real,
    totalMonthlyPayment: real,
    activeDeals: nat,
    upcomingPayments: seq<Deal>)

  predicate HasNextPayment(d: Deal) { d.nextPaymentDate.Some? }
  /** The sort key `new Date(d.nextPaymentDate!).getTime()`; only dated deals are sorted by it. */
  function NextPaymentKey(d: Deal): real { if d.nextPaymentDate.Some? then d.nextPaymentDate.value as real else 0.0 }

  /** The active deals that have a next payment date, in input order. */
  function Candidates(deals: seq<Deal>): seq<Deal>
  {
    Filter(Filter(deals, IsActive), HasNextPayment)
  }

  function Upcoming(deals: seq<Deal>): seq<Deal>
  {
    Take(Sort(Candidates(deals), NextPaymentKey), 3)
  }

  function Metrics(deals: seq<Deal>): (m: DashboardData)
    ensures m.activeDeals <= |deals|
    ensures |m.upcomingPayments| <= 3 && |m.upcomingPayments| <= m.activeDeals
  {
    var active := Filter(deals, IsActive);
    DashboardData(Sum(active, Balance), Sum(active, Principal), Sum(active, PaymentOrZero),
                  |active|, Upcoming(deals))
  }

  /** The handler: no user id (absent or empty) yields the Unauthorized error. */
  function GetDashboard(userId: Option<string>, deals: seq<Deal>): (r: Result<DashboardData>)
    ensures r.Failure? <==> userId == None || userId == Some("")
    ensures r.Failure? ==> r.error == "Unauthorized"
    ensures r.Success? ==> r.value == Metrics(deals)
  {
    if userId.None? || userId.value == "" then Failure("Unauthorized")
    else Success(Metrics(deals))
  }

  /** Each upcoming payment is an active deal with a next payment date, taken from the input. */
  lemma UpcomingAreActiveDated(deals: seq<Deal>)
    ensures |Upcoming(deals)| <= 3
    ensures forall i :: 0 <= i < |Upcoming(deals)| ==>
              Upcoming(deals)[i] in deals && IsActive(Upcoming(deals)[i]) && HasNextPayment(Upcoming(deals)[i])
  {
    var c := Candidates(deals);
    var up := Upcoming(deals);
    SortPermutes(c, NextPaymentKey);
    forall i | 0 <= i < |up|
      ensures up[i] in deals && IsActive(up[i]) && HasNextPayment(up[i])
    {
      assert up[i] in Sort(c, NextPaymentKey);
      assert up[i] in multiset(c);
      assert up[i] in Filter(deals, IsActive);
    }
  }

  /** Upcoming payments are in ascending order of their next payment date
      (all of them have one, so the key is that date). */
  lemma UpcomingAscending(deals: seq<Deal>)
    ensures SortedBy(Upcoming(deals), NextPaymentKey)
  {
    var sorted := Sort(Candidates(deals), NextPaymentKey);
    SortSorted(Candidates(deals), NextPaymentKey);
    var up := Upcoming(deals);
    forall i, j | 0 <= i < j < |up|
      ensures NextPaymentKey(up[i]) <= NextPaymentKey(up[j])
    {
      assert up[i] == sorted[i] && up[j] == sorted[j];
    }
  }

  /** Nothing earlier was passed over: an active dated deal left out of the
      list means three were chosen, none of them later than it. */
  lemma UpcomingEarliest(deals: seq<Deal>, d: Deal)
    requires d in deals && IsActive(d) && HasNextPayment(d)
    requires d !in Upcoming(deals)
    ensures |Upcoming(deals)| == 3
    ensures forall i :: 0 <= i < 3 ==> NextPaymentKey(Upcoming(deals)[i]) <= NextPaymentKey(d)
  {
    var c := Candidates(deals);
    var sorted := Sort(c, NextPaymentKey);
    assert d in Filter(deals, IsActive);
    assert d in c;
    SortPermutes(c, NextPaymentKey);
    assert d in multiset(sorted);
    var j :| 0 <= j < |sorted| && sorted[j] == d;
    SortSorted(c, NextPaymentKey);
    if |sorted| <= 3 {
      assert false;
    }
    assert j >= 3;
    forall i | 0 <= i < 3
      ensures NextPaymentKey(Upcoming(deals)[i]) <= NextPaymentKey(d)
    {
      assert Upcoming(deals)[i] == sorted[i];
    }
  }

  /** Ties keep their input order: for each date, the upcoming deals with that
      date are a prefix of the candidates with that date, in input order. */
  lemma UpcomingStable(deals: seq<Deal>, k: real)
    ensures Filter(Upcoming(deals), KeyIs(NextPaymentKey, k))
         <= Filter(Candidates(deals), KeyIs(NextPaymentKey, k))
  {
    var c := Candidates(deals);
    var sorted := Sort(c, NextPaymentKey);
    SortStable(c, NextPaymentKey, k);
    if 3 < |sorted| {
      FilterPrefix(sorted, 3, KeyIs(NextPaymentKey, k));
    }
  }

  /** The totals cover the active deals only: each equals the sum over all
      deals with every non-active deal counted as 0. */
  lemma TotalsCountActiveOnly(deals: seq<Deal>)
    ensures Metrics(deals).totalBalance == Sum(deals, Masked(IsActive, Balance))
    ensures Metrics(deals).totalCredit == Sum(deals, Masked(IsActive, Principal))
    ensures Metrics(deals).totalMonthlyPayment == Sum(deals, Masked(IsActive, PaymentOrZero))
    ensures Metrics(deals).activeDeals == |Filter(deals, IsActive)|
  {
    SumFilterMasked(deals, IsActive, Balance);
    SumFilterMasked(deals, IsActive, Principal);
    SumFilterMasked(deals, IsActive, PaymentOrZero);
  }

  /** No deals: zero sums, zero count, no upcoming payments. */
  lemma EmptyDashboard()
    ensures Metrics([]) == DashboardData(0.0, 0.0, 0.0, 0, [])
  {
  }

  /** On the seed deals: 1,080,000 outstanding over 5 active deals, and the next
      payments are due on CF240003 (Aug 10), CF240001 (Aug 15), CF240002 (Aug 20). */
  lemma SeedDashboard()
    ensures Metrics(SeedDeals()).totalBalance == 1080000.0
    ensures Metrics(SeedDeals()).totalCredit == 1370000.0
    ensures Metrics(SeedDeals()).activeDeals == 5
    ensures |Metrics(SeedDeals()).upcomingPayments| == 3
    ensures Metrics(SeedDeals()).upcomingPayments[0].dealNumber == "CF240003"
    ensures Metrics(SeedDeals()).upcomingPayments[1].dealNumber == "CF240001"
    ensures Metrics(SeedDeals()).upcomingPayments[2].dealNumber == "CF240002"
  {
    var s := SeedDeals();
    SeedActive();
    SeedOrder();
  }

  lemma SeedActive()
    ensures Filter(SeedDeals(), IsActive) == SeedDeals()[..5]
    ensures Candidates(SeedDeals()) == SeedDeals()[..5]
  {
    SeedFlags();
    FiveActiveFirst(SeedDeals());
  }

  /** The seed's first five deals are active and have a next payment; the last two are not active. */
  lemma SeedFlags()
    ensures var s := SeedDeals();
            |s| == 7
            && (forall i :: 0 <= i < 5 ==> IsActive(s[i]) && HasNextPayment(s[i]))
            && !IsActive(s[5]) && !IsActive(s[6])
  {
  }

  lemma FiveActiveFirst(s: seq<Deal>)
    requires |s| == 7
    requires forall i :: 0 <= i < 5 ==> IsActive(s[i]) && HasNextPayment(s[i])
    requires !IsActive(s[5]) && !IsActive(s[6])
    ensures Filter(s, IsActive) == s[..5]
    ensures Candidates(s) == s[..5]
  {
    forall i | 0 <= i < 2 ensures !IsActive(s[5..][i]) {
    }
    FilterDropsAll(s[5..], IsActive);
    forall i | 0 <= i < 5 ensures IsActive(s[..5][i]) && HasNextPayment(s[..5][i]) {
    }
    FilterKeepsAll(s[..5], IsActive);
    assert s == s[..5] + s[5..];
    FilterAppend(s[..5], s[5..], IsActive);
    FilterKeepsAll(s[..5], HasNextPayment);
  }

  lemma SeedOrder()
    ensures Sort(SeedDeals()[..5], NextPaymentKey)
         == [SeedDeals()[2], SeedDeals()[0], SeedDeals()[1], SeedDeals()[3], SeedDeals()[4]]
  {
    SeedPaymentKeys();
    var s := SeedDeals();
    assert s[..5] == [s[0], s[1], s[2], s[3], s[4]];
    SortFiveByNextPayment(s[0], s[1], s[2], s[3], s[4]);
  }

  /** The order of the next payment dates of the five active seed deals. */
  lemma SeedPaymentKeys()
    ensures var s := SeedDeals();
            |s| == 7
            && NextPaymentKey(s[2]) < NextPaymentKey(s[0]) < NextPaymentKey(s[1])
            && NextPaymentKey(s[1]) < NextPaymentKey(s[3]) < NextPaymentKey(s[4])
  {
  }

  /** The insertion steps for five deals whose next payments are ordered as the seed's. */
  lemma SortFiveByNextPayment(d0: Deal, d1: Deal, d2: Deal, d3: Deal, d4: Deal)
    requires NextPaymentKey(d2) < NextPaymentKey(d0) <= NextPaymentKey(d1)
    requires NextPaymentKey(d1) <= NextPaymentKey(d3) <= NextPaymentKey(d4)
    ensures Sort([d0, d1, d2, d3, d4], NextPaymentKey) == [d2, d0, d1, d3, d4]
  {
    var k := NextPaymentKey;
    SortThreeByNextPayment(d0, d1, d2);
    SortSnoc([d0, d1, d2], d3, k);
    InsertBetween([d2, d0, d1], [], [d2, d0, d1], d3, k);
    assert Sort([d0, d1, d2, d3], k) == [d2, d0, d1, d3] by {
      assert [d0, d1, d2] + [d3] == [d0, d1, d2, d3];
      assert [d2, d0, d1] + [d3] + [] == [d2, d0, d1, d3];
    }
    SortSnoc([d0, d1, d2, d3], d4, k);
    InsertBetween([d2, d0, d1, d3], [], [d2, d0, d1, d3], d4, k);
    assert [d0, d1, d2, d3] + [d4] == [d0, d1, d2, d3, d4];
    assert [d2, d0, d1, d3] + [d4] + [] == [d2, d0, d1, d3, d4];
  }

  lemma SortThreeByNextPayment(d0: Deal, d1: Deal, d2: Deal)
    requires NextPaymentKey(d2) < NextPaymentKey(d0) <= NextPaymentKey(d1)
    ensures Sort([d0, d1, d2], NextPaymentKey) == [d2, d0, d1]
  {
    var k := NextPaymentKey;
    SortPair(d0, d1, k);
    SortSnocFirst([d0, d1], d2, k);
    assert [d0, d1] + [d2] == [d0, d1, d2];
  }
}
