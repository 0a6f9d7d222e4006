/** The sales and check-in thresholds, and the three ways the repository rounds 36 percent up. */
module Thresholds {

  /** Basis points with round-up, in big integers (services and the Fund contract). */
  function RequiredInBps(n: nat): nat
  {
    (n * 3600 + 9999) / 10000
  }

  function Ceiling(x: real): int
  {
    if x.Floor as real == x then x.Floor else x.Floor + 1
  }

  /** Scaled division and ceiling (the lifecycle timer). */
  function RequiredByCeiling(n: nat): int
  {
    Ceiling((n * 3600) as real / 10000.0)
  }

  /** Percent with round-up (the frontend). */
  function RequiredInPercent(n: nat): nat
  {
    (n * 36 + 99) / 100
  }

  /** k is the least count that is at least 36 percent of n. */
  ghost predicate LeastCovering(k: int, n: nat)
  {
    100 * k >= 36 * n && forall j: int :: 100 * j >= 36 * n ==> k <= j
  }

  lemma LeastIsUnique(a: int, b: int, n: nat)
    requires LeastCovering(a, n) && LeastCovering(b, n)
    ensures a == b
  {
  }

  lemma CeilingCovers(n: nat)
    ensures LeastCovering(RequiredByCeiling(n), n)
  {
    var x := (n * 3600) as real / 10000.0;
    var k := RequiredByCeiling(n);
    assert x * 10000.0 == (n * 3600) as real;
    assert (k - 1) as real < x <= k as real;
    assert (10000 * (k - 1)) as real < (n * 3600) as real <= (10000 * k) as real;
  }

  lemma ThresholdFormsAgree(n: nat)
    ensures RequiredInBps(n) == RequiredByCeiling(n) == RequiredInPercent(n)
    ensures LeastCovering(RequiredInBps(n), n)
    ensures n >= 1 ==> 1 <= RequiredInBps(n) <= n
  {
    CeilingCovers(n);
    LeastIsUnique(RequiredInBps(n), RequiredByCeiling(n), n);
    LeastIsUnique(RequiredInPercent(n), RequiredByCeiling(n), n);
  }

  // ---- decisions ----

  /** The timer's check-in test after the end date. */
  predicate CheckInPasses(sold: nat, used: nat)
  {
    sold > 0 && used >= if sold > 0 then RequiredByCeiling(sold) else 0
  }

  /** When the Fund contract lets an event complete. */
  predicate FundAcceptsCompletion(sold: nat, used: nat)
  {
    sold != 0 && used >= RequiredInBps(sold)
  }

  predicate FrontendAllowsCompletion(sold: nat, used: nat)
  {
    sold > 0 && used >= RequiredInPercent(sold)
  }

  /** Timer, contract and frontend never disagree, and all mean 36 percent of the sold tickets. */
  lemma CompletionTestsAgree(sold: nat, used: nat)
    ensures CheckInPasses(sold, used) == FundAcceptsCompletion(sold, used) == FrontendAllowsCompletion(sold, used)
    ensures CheckInPasses(sold, used) <==> sold > 0 && 100 * used >= 36 * sold
  {
    ThresholdFormsAgree(sold);
  }

  lemma MoreUsedStillPasses(sold: nat, used: nat, more: nat)
    requires CheckInPasses(sold, used) && used <= more
    ensures CheckInPasses(sold, more)
  {
  }

  /** More sold tickets do break a passing check-in: exactly when 36 percent of the new count exceeds the used ones. */
  lemma MoreSoldBreaksIff(sold: nat, used: nat, more: nat)
    requires CheckInPasses(sold, used) && sold <= more
    ensures !CheckInPasses(more, used) <==> 36 * more > 100 * used
  {
    CompletionTestsAgree(more, used);
  }

  /** A percentage above zero decides, else a positive count, else everything must be sold. */
  predicate SalesPass(sold: nat, maxTickets: nat, percent: real, count: int)
    requires maxTickets > 0
  {
    if percent > 0.0 then (sold as real / maxTickets as real) * 100.0 >= percent
    else if count > 0 then sold >= count
    else sold >= maxTickets
  }

  /** Without the division: the sold share of the maximum, the count, or all of it. */
  lemma SalesPassMeans(sold: nat, maxTickets: nat, percent: real, count: int)
    requires maxTickets > 0
    ensures SalesPass(sold, maxTickets, percent, count)
            <==> if percent > 0.0 then 100.0 * sold as real >= percent * maxTickets as real
                 else sold >= if count > 0 then count else maxTickets
  {
    var m := maxTickets as real;
    var share := sold as real / m;
    assert share * m == sold as real;
    assert share * 100.0 >= percent <==> share * 100.0 * m >= percent * m;
    assert share * 100.0 * m == 100.0 * sold as real;
  }

  lemma MoreSalesStillPass(sold: nat, more: nat, maxTickets: nat, percent: real, count: int)
    requires maxTickets > 0 && sold <= more && SalesPass(sold, maxTickets, percent, count)
    ensures SalesPass(more, maxTickets, percent, count)
  {
    if percent > 0.0 {
      var m := maxTickets as real;
      DivideMonotone(sold as real, more as real, m);
    }
  }

  lemma DivideMonotone(a: real, b: real, m: real)
    requires a <= b && m > 0.0
    ensures a / m <= b / m
  {
    assert b / m - a / m == (b - a) / m;
  }
}
