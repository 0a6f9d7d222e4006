/**
 * How confirmed contributions become share amounts and percentages: the totals
 * a rebuild computes, and the two percentage rules of the repository.
 */
module Shares {
  import opened Sums

  datatype Kind = OrganizerStake | Donation

  datatype RowStatus = Pending | Confirmed | Refunded

  datatype Row = Row(eventId: string, contributor: string, kind: Kind, amount: int, txHash: string, status: RowStatus)

  /** The rows a rebuild reads. */
  predicate Counts(r: Row, e: string)
  {
    r.eventId == e && r.kind == Donation && r.status == Confirmed
  }

  function Total(rows: seq<Row>, e: string): int
  {
    if rows == [] then 0
    else
      var r := rows[|rows| - 1];
      Total(rows[..|rows| - 1], e) + if Counts(r, e) then r.amount else 0
  }

  /** The confirmed sum of one holder. */
  function SumOf(rows: seq<Row>, e: string, h: string): int
  {
    if rows == [] then 0
    else
      var r := rows[|rows| - 1];
      SumOf(rows[..|rows| - 1], e, h) + if Counts(r, e) && r.contributor == h then r.amount else 0
  }

  function Contributors(rows: seq<Row>, e: string): set<string>
  {
    set r | r in rows && Counts(r, e) && r.contributor != "" :: r.contributor
  }

  /** The confirmed sums of all named contributors, grouped. */
  function Groups(rows: seq<Row>, e: string): map<string, int>
  {
    map h | h in Contributors(rows, e) :: SumOf(rows, e, h)
  }

  lemma ContributorsAppend(rows: seq<Row>, e: string)
    requires rows != []
    ensures Contributors(rows, e)
            == var r := rows[|rows| - 1];
               Contributors(rows[..|rows| - 1], e) + if Counts(r, e) && r.contributor != "" then {r.contributor} else {}
  {
    assert rows == rows[..|rows| - 1] + [rows[|rows| - 1]];
  }

  lemma {:induction false} NoRowsNoSum(rows: seq<Row>, e: string, h: string)
    requires h != "" && h !in Contributors(rows, e)
    ensures SumOf(rows, e, h) == 0
  {
    if rows != [] {
      ContributorsAppend(rows, e);
      NoRowsNoSum(rows[..|rows| - 1], e, h);
      assert rows[|rows| - 1] in rows;
    }
  }

  lemma GroupsAre(rows: seq<Row>, e: string)
    ensures Groups(rows, e).Keys == Contributors(rows, e)
    ensures rows == [] ==> Groups(rows, e) == map[]
    ensures "" !in Contributors(rows, e)
    ensures forall h :: h in Groups(rows, e) ==> Groups(rows, e)[h] == SumOf(rows, e, h)
  {
  }

  lemma NoGroupsNoSum(g: map<string, int>)
    ensures g == map[] ==> MapSum(g) == 0
  {
  }

  lemma GroupsAppend(rows: seq<Row>, e: string)
    requires rows != []
    ensures var rows', r := rows[..|rows| - 1], rows[|rows| - 1];
            var g := Groups(rows', e);
            && Groups(rows, e) == (if Counts(r, e) && r.contributor != ""
                                   then g[r.contributor := SumOf(rows', e, r.contributor) + r.amount] else g)
            && (Counts(r, e) && r.contributor != "" && r.contributor !in g ==> SumOf(rows', e, r.contributor) == 0)
  {
    hide Groups, Contributors, SumOf;
    var rows', r := rows[..|rows| - 1], rows[|rows| - 1];
    ContributorsAppend(rows, e);
    GroupsAre(rows, e);
    GroupsAre(rows', e);
    forall h
      ensures SumOf(rows, e, h) == SumOf(rows', e, h) + if Counts(r, e) && r.contributor == h then r.amount else 0
    {
      SumOfAppend(rows, e, h);
    }
    if Counts(r, e) && r.contributor != "" && r.contributor !in Groups(rows', e) {
      NoRowsNoSum(rows', e, r.contributor);
    }
    var g := Groups(rows', e);
    var k := if Counts(r, e) && r.contributor != ""
             then g[r.contributor := SumOf(rows', e, r.contributor) + r.amount] else g;
    assert Groups(rows, e).Keys == k.Keys;
    forall h | h in k
      ensures Groups(rows, e)[h] == k[h]
    {
      assert SumOf(rows, e, h) == SumOf(rows', e, h) + if Counts(r, e) && r.contributor == h then r.amount else 0;
    }
    assert Groups(rows, e) == k;
  }

  lemma SumOfAppend(rows: seq<Row>, e: string, h: string)
    requires rows != []
    ensures var r := rows[|rows| - 1];
            SumOf(rows, e, h)
            == SumOf(rows[..|rows| - 1], e, h) + if Counts(r, e) && r.contributor == h then r.amount else 0
  {
  }

  /** Grouping by holder loses exactly the rows without a contributor. */
  lemma {:induction false} GroupsAddUp(rows: seq<Row>, e: string)
    ensures MapSum(Groups(rows, e)) == Total(rows, e) - SumOf(rows, e, "")
  {
    hide Groups, MapSum, Contributors;
    if rows == [] {
      GroupsAre(rows, e);
      NoGroupsNoSum(Groups(rows, e));
    } else {
      var rows', r := rows[..|rows| - 1], rows[|rows| - 1];
      GroupsAddUp(rows', e);
      var g' := Groups(rows', e);
      GroupsAppend(rows, e);
      GroupsAre(rows', e);
      if Counts(r, e) && r.contributor != "" {
        MapSumPut(g', r.contributor, SumOf(rows', e, r.contributor) + r.amount);
      }
    }
  }

  // ---- percentages ----

  /** Division of big integers truncates toward zero. */
  function Quotient(a: int, b: int): int
    requires b > 0
  {
    if a >= 0 then a / b else -((-a) / b)
  }

  /** Hundredths of a percent, as the service rounds them. */
  function Hundredths(part: int, total: int): int
  {
    if total <= 0 then 0 else Quotient(part * 10000, total)
  }

  function CalculatePercentage(part: int, total: int): real
  {
    Hundredths(part, total) as real / 100.0
  }

  /** The unrounded percentage that the share repository writes. */
  function ExactPercentage(part: int, total: int): real
  {
    if total > 0 then (part as real / total as real) * 100.0 else 0.0
  }

  lemma HundredthsBounds(part: int, total: int)
    requires part >= 0 && total > 0
    ensures total * Hundredths(part, total) <= part * 10000 < total * Hundredths(part, total) + total
    ensures Hundredths(part, total) >= 0
  {
    var a := part * 10000;
    assert a == total * (a / total) + a % total;
  }

  lemma HundredthsMonotone(a: int, b: int, total: int)
    requires 0 <= a <= b && total > 0
    ensures Hundredths(a, total) <= Hundredths(b, total)
  {
    HundredthsBounds(a, total);
    HundredthsBounds(b, total);
    CancelInt(total, Hundredths(a, total), Hundredths(b, total) + 1);
  }

  lemma CancelInt(t: int, a: int, b: int)
    requires t > 0
    ensures t * a < t * b <==> a < b
  {
  }

  lemma CancelReal(t: real, a: real, b: real)
    requires t > 0.0
    ensures t * a < t * b <==> a < b
  {
    assert t * b - t * a == t * (b - a);
  }

  lemma ProductAsReal(a: int, b: int)
    ensures (a * b) as real == a as real * b as real
  {
  }

  /** The rounded percentage is below the exact one by less than a hundredth. */
  lemma PercentagesAgree(part: int, total: int)
    requires part >= 0 && total > 0
    ensures 0.0 <= ExactPercentage(part, total) - CalculatePercentage(part, total) < 0.01
  {
    HundredthsBounds(part, total);
    var q := Hundredths(part, total);
    ProductAsReal(total, q);
    RatioBetween(total as real, part as real, part as real / total as real, q as real);
  }

  lemma RatioBetween(t: real, p: real, ratio: real, x: real)
    requires t > 0.0 && ratio * t == p
    requires t * x <= p * 10000.0 < t * x + t
    ensures x <= ratio * 10000.0 < x + 1.0
  {
    var y := ratio * 10000.0;
    assert t * y == p * 10000.0;
    assert t * (x + 1.0) == t * x + t;
    CancelReal(t, y, x);
    CancelReal(t, y, x + 1.0);
  }

  ghost function Rounded(m: map<string, int>, total: int): map<string, int>
  {
    map h | h in m :: Hundredths(m[h], total)
  }

  lemma SumBoundsStep(t: int, x: int, s: int, n: int, a: int, b: int)
    requires t * x <= a * 10000 < t * x + t
    requires t * s <= 10000 * b <= t * s + t * n
    ensures t * (x + s) <= 10000 * (a + b) < t * (x + s) + t * (n + 1)
  {
    assert t * (x + s) == t * x + t * s && t * (n + 1) == t * n + t;
  }

  lemma {:induction false} RoundedSumBounds(m: map<string, int>, total: int)
    requires total > 0 && forall h :: h in m ==> m[h] >= 0
    ensures var s := MapSum(Rounded(m, total));
            && total * s <= 10000 * MapSum(m) <= total * s + total * |m|
            && (m != map[] ==> 10000 * MapSum(m) < total * s + total * |m|)
    decreases m.Keys
  {
    hide Hundredths;
    var q := Rounded(m, total);
    if m == map[] {
      assert q == map[];
    } else {
      var h :| h in m;
      var n := m - {h};
      assert n.Keys == m.Keys - {h};
      RoundedSumBounds(n, total);
      MapSumSplit(m, h);
      MapSumSplit(q, h);
      assert q - {h} == Rounded(n, total);
      HundredthsBounds(m[h], total);
      SumBoundsStep(total, q[h], MapSum(Rounded(n, total)), |n|, m[h], MapSum(n));
    }
  }

  /**
   * With a positive total, the rounded percentages of n contributing holders
   * sum to at most 100 percent and to more than 100 percent minus n hundredths.
   */
  lemma RoundedPercentagesNearlyAddUp(rows: seq<Row>, e: string)
    requires Total(rows, e) > 0
    requires forall r :: r in rows && Counts(r, e) ==> r.amount > 0 && r.contributor != ""
    ensures 10000 - |Groups(rows, e)| < MapSum(Rounded(Groups(rows, e), Total(rows, e))) <= 10000
  {
    hide Total, SumOf, Groups, Contributors, Hundredths, MapSum;
    var g, total := Groups(rows, e), Total(rows, e);
    GroupsAddUp(rows, e);
    NamelessSum(rows, e);
    assert g.Keys == Contributors(rows, e) by {
      GroupsAre(rows, e);
    }
    forall h | h in g
      ensures g[h] >= 0
    {
      GroupsAre(rows, e);
      ContributorSumPositive(rows, e, h);
    }
    RoundedSumBounds(g, total);
    NoGroupsNoSum(g);
    DivideBounds(total, MapSum(Rounded(g, total)), |g|);
  }

  lemma DivideBounds(t: int, s: int, n: int)
    requires t > 0 && t * s <= 10000 * t < t * s + t * n
    ensures 10000 - n < s <= 10000
  {
    assert t * (s + n) == t * s + t * n;
    CancelInt(t, 10000, s);
    CancelInt(t, 10000, s + n);
  }

  lemma {:induction false} NamelessSum(rows: seq<Row>, e: string)
    requires forall r :: r in rows && Counts(r, e) ==> r.contributor != ""
    ensures SumOf(rows, e, "") == 0
  {
    if rows != [] {
      assert rows[|rows| - 1] in rows;
      NamelessSum(rows[..|rows| - 1], e);
    }
  }

  lemma {:induction false} ContributorSumPositive(rows: seq<Row>, e: string, h: string)
    requires forall r :: r in rows && Counts(r, e) ==> r.amount > 0
    ensures SumOf(rows, e, h) >= 0
    ensures h in Contributors(rows, e) ==> SumOf(rows, e, h) > 0
  {
    if rows != [] {
      assert rows[|rows| - 1] in rows;
      ContributorsAppend(rows, e);
      ContributorSumPositive(rows[..|rows| - 1], e, h);
    }
  }

  // ---- the rows the share repository reads ----

  /** The repository's own rebuild drops confirmed rows without a contributor or a positive amount. */
  predicate Keeps(r: Row, e: string)
  {
    Counts(r, e) ==> r.contributor != "" && r.amount > 0
  }

  function Kept(rows: seq<Row>, e: string): seq<Row>
  {
    if rows == [] then []
    else Kept(rows[..|rows| - 1], e) + if Keeps(rows[|rows| - 1], e) then [rows[|rows| - 1]] else []
  }

  /** Of the confirmed donations to the event, those with a holder and a positive amount are kept. */
  lemma {:induction false} KeptIff(rows: seq<Row>, e: string, r: Row)
    ensures r in Kept(rows, e)
            <==> r in rows && (r.eventId == e && r.kind == Donation && r.status == Confirmed ==>
                                 r.contributor != "" && r.amount > 0)
  {
    if rows != [] {
      KeptIff(rows[..|rows| - 1], e, r);
      assert rows == rows[..|rows| - 1] + [rows[|rows| - 1]];
    }
  }

  lemma {:induction false} KeepsAll(rows: seq<Row>, e: string)
    requires forall r :: r in rows ==> Keeps(r, e)
    ensures Kept(rows, e) == rows
  {
    if rows != [] {
      var n := |rows| - 1;
      assert rows == rows[..n] + [rows[n]];
      assert rows[n] in rows;
      KeepsAll(rows[..n], e);
    }
  }

  /** What one more row does to the kept groups and the kept total. */
  lemma KeptStep(rows: seq<Row>, e: string)
    requires rows != []
    ensures var rows', r := rows[..|rows| - 1], rows[|rows| - 1];
            var g := Groups(Kept(rows', e), e);
            var take := Counts(r, e) && Keeps(r, e);
            && Groups(Kept(rows, e), e)
               == (if take then g[r.contributor := (if r.contributor in g then g[r.contributor] else 0) + r.amount]
                   else g)
            && Total(Kept(rows, e), e) == Total(Kept(rows', e), e) + if take then r.amount else 0
  {
    hide Groups, SumOf, Contributors;
    var before, after := Kept(rows[..|rows| - 1], e), Kept(rows, e);
    if Keeps(rows[|rows| - 1], e) {
      assert after[..|after| - 1] == before;
      GroupsAppend(after, e);
      GroupsAre(before, e);
    } else {
      assert after == before;
    }
  }

  // ---- contribution order ----

  lemma FindLast(a: seq<Row>, b: seq<Row>) returns (i: nat)
    requires a != [] && multiset(a) == multiset(b)
    ensures i < |b| && b[i] == a[|a| - 1]
    ensures multiset(a[..|a| - 1]) == multiset(b[..i] + b[i + 1..])
  {
    var r := a[|a| - 1];
    assert r in multiset(a);
    i :| 0 <= i < |b| && b[i] == r;
    assert a == a[..|a| - 1] + [r];
    assert b == b[..i] + ([r] + b[i + 1..]);
    var c := b[..i] + b[i + 1..];
    assert multiset(c) == multiset(b[..i]) + multiset(b[i + 1..]);
    assert multiset(b) == multiset(c) + multiset{r};
    assert multiset(a[..|a| - 1]) == multiset(a) - multiset{r};
    assert multiset(c) == multiset(b) - multiset{r};
  }

  lemma {:induction false} TakingOut(b: seq<Row>, i: nat, e: string, h: string)
    requires i < |b|
    ensures Total(b, e) == Total(b[..i] + b[i + 1..], e) + (if Counts(b[i], e) then b[i].amount else 0)
    ensures SumOf(b, e, h)
            == SumOf(b[..i] + b[i + 1..], e, h) + (if Counts(b[i], e) && b[i].contributor == h then b[i].amount else 0)
    decreases |b|
  {
    var c := b[..i] + b[i + 1..];
    if i == |b| - 1 {
      assert c == b[..|b| - 1];
    } else {
      var b1 := b[..|b| - 1];
      TakingOut(b1, i, e, h);
      assert c[..|c| - 1] == b1[..i] + b1[i + 1..];
      assert c[|c| - 1] == b[|b| - 1];
    }
  }

  /** Totals and groups depend on which rows there are, not on their order. */
  lemma {:induction false} OrderDoesNotMatter(a: seq<Row>, b: seq<Row>, e: string, h: string)
    requires multiset(a) == multiset(b)
    ensures Total(a, e) == Total(b, e) && SumOf(a, e, h) == SumOf(b, e, h)
    decreases |a|
  {
    if a == [] {
      assert |b| == |multiset(b)| == 0;
    } else {
      var i := FindLast(a, b);
      TakingOut(b, i, e, h);
      OrderDoesNotMatter(a[..|a| - 1], b[..i] + b[i + 1..], e, h);
    }
  }

  /** Hence the percentages do not depend on contribution order either. */
  lemma PercentagesIgnoreOrder(a: seq<Row>, b: seq<Row>, e: string)
    requires multiset(a) == multiset(b)
    ensures Groups(a, e) == Groups(b, e) && Total(a, e) == Total(b, e)
  {
    assert forall r :: r in a <==> r in multiset(a);
    assert forall r :: r in b <==> r in multiset(b);
    assert Contributors(a, e) == Contributors(b, e);
    forall h {
      OrderDoesNotMatter(a, b, e, h);
    }
    OrderDoesNotMatter(a, b, e, "");
  }
}
