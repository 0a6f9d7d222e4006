/** Laws of the refund sweep: over one sweep, and over any number of sweeps with any faults. */
module RefundLaws {
  import opened RefundSweep

  ghost predicate Distinct(ids: seq<nat>)
  {
    forall i, j :: 0 <= i < j < |ids| ==> ids[i] != ids[j]
  }

  // ---- every token is accounted for ----

  lemma {:induction false} RefundAllCounts(s: Refunding, ids: seq<nat>, blocked: set<nat>, faults: nat -> Faults)
    ensures var r := RefundAll(s, ids, blocked, faults);
            && r.inspected == s.inspected + |ids|
            && r.refunded + r.alreadyRefunded + r.skipped + r.failed
               == s.refunded + s.alreadyRefunded + s.skipped + s.failed + |ids|
  {
    if ids != [] {
      RefundAllCounts(s, ids[..|ids| - 1], blocked, faults);
    }
  }

  lemma EveryTokenAccountedFor(c: Chain, db: Db, ids: seq<nat>, faults: nat -> Faults)
    ensures var r := Sweep(c, db, ids, faults);
            r.inspected == |ids| == r.refunded + r.alreadyRefunded + r.skipped + r.failed
  {
    var p := Phase1(c, db, ids, faults);
    RefundAllCounts(Refunding(p.chain, p.db, 0, 0, 0, 0, 0), ids, p.blocked, faults);
  }

  // ---- nobody is paid twice ----

  /** No token was paid twice, a paid token is refunded, and the database claims no refund the chain has not made. */
  ghost predicate Honest(c: Chain, db: Db)
  {
    && Distinct(c.paid)
    && (forall t :: t in c.paid ==> Raw(c, t) == Refunded)
    && (forall t :: t in db.tickets && db.tickets[t].status == Refunded ==> Raw(c, t) == Refunded)
  }

  ghost function SoldTokens(c: Chain): set<nat>
  {
    set t | t in c.raw && c.raw[t] == Sold
  }

  /** What remains to be settled: sold tickets and active listings. */
  ghost function Unsettled(c: Chain): nat
  {
    |SoldTokens(c)| + |c.listing.Keys|
  }

  lemma UnlistShrinks(c: Chain, t: nat)
    requires t in c.listing
    ensures Unsettled(Unlist(c, t)) < Unsettled(c)
  {
    assert Unlist(c, t).listing.Keys == c.listing.Keys - {t};
    assert SoldTokens(Unlist(c, t)) == SoldTokens(c);
  }

  lemma PayRefundShrinks(c: Chain, t: nat)
    requires CanRefund(c, t)
    ensures Unsettled(PayRefund(c, t)) < Unsettled(c)
  {
    assert SoldTokens(PayRefund(c, t)) == SoldTokens(c) - {t};
    assert t in SoldTokens(c);
  }

  /** What the sweep saw of a token before it may refund it: no listing, or a listing it cancelled itself. */
  ghost predicate Cleared(c: Chain, f: Faults, t: nat)
  {
    !f.inspectFails && (t in c.listing ==> f.cancel == Works && CanCancel(c, t))
  }

  /** No row newly claims a refund. */
  ghost predicate NoNewRefunds(db: Db, db': Db)
  {
    forall t :: t in db'.tickets && db'.tickets[t].status == Refunded
                ==> t in db.tickets && db.tickets[t].status == Refunded
  }

  /** One round of the first loop: the chain is as before or lost the token's listing. */
  lemma CancelOneEffects(s: Cancelling, t: nat, f: Faults)
    ensures var r := CancelOne(s, t, f);
            && (r.chain == s.chain || (t in s.chain.listing && r.chain == Unlist(s.chain, t)))
            && NoNewRefunds(s.db, r.db) && s.blocked <= r.blocked <= s.blocked + {t}
            && (t !in r.blocked ==> Cleared(s.chain, f, t) && t !in r.chain.listing)
  {
  }

  /** One round of the second loop: the chain is as before or paid for an unblocked, unlisted token. */
  lemma RefundOneEffects(s: Refunding, t: nat, blocked: set<nat>, f: Faults)
    ensures var r := RefundOne(s, t, blocked, f);
            && (r.chain == s.chain || (CanRefund(s.chain, t) && t !in blocked && r.chain == PayRefund(s.chain, t)))
            && (r.db == s.db || (r.db == SyncRow(s.db, t, f) && Raw(r.chain, t) == Refunded))
  {
  }

  lemma {:induction false} CancellingIsSafe(s: Cancelling, ids: seq<nat>, faults: nat -> Faults)
    ensures var r := CancelAll(s, ids, faults);
            && r.chain == s.chain.(listing := r.chain.listing) && r.chain.listing.Keys <= s.chain.listing.Keys
            && NoNewRefunds(s.db, r.db) && Unsettled(r.chain) <= Unsettled(s.chain)
  {
    hide CancelOne, Unsettled;
    if ids != [] {
      var before, t := CancelAll(s, ids[..|ids| - 1], faults), ids[|ids| - 1];
      CancellingIsSafe(s, ids[..|ids| - 1], faults);
      CancelOneEffects(before, t, faults(t));
      if t in before.chain.listing {
        UnlistShrinks(before.chain, t);
      }
    }
  }

  lemma RefundOneIsSafe(s: Refunding, t: nat, blocked: set<nat>, f: Faults)
    requires Honest(s.chain, s.db)
    ensures var r := RefundOne(s, t, blocked, f);
            && Honest(r.chain, r.db) && Unsettled(r.chain) <= Unsettled(s.chain)
            && s.chain.paid <= r.chain.paid && r.chain.listing == s.chain.listing
            && (forall x :: x in r.chain.paid[|s.chain.paid|..] ==> x == t && x !in blocked && x !in s.chain.listing)
  {
    hide RefundOne, Unsettled;
    RefundOneEffects(s, t, blocked, f);
    if CanRefund(s.chain, t) {
      PayRefundShrinks(s.chain, t);
    }
  }

  lemma {:induction false} RefundingIsSafe(s: Refunding, ids: seq<nat>, blocked: set<nat>, faults: nat -> Faults)
    requires Honest(s.chain, s.db)
    ensures var r := RefundAll(s, ids, blocked, faults);
            && Honest(r.chain, r.db) && Unsettled(r.chain) <= Unsettled(s.chain)
            && s.chain.paid <= r.chain.paid && r.chain.listing == s.chain.listing
            && (forall x :: x in r.chain.paid[|s.chain.paid|..] ==> x in ids && x !in blocked && x !in s.chain.listing)
  {
    hide Honest, Unsettled, RefundOne;
    if ids != [] {
      var n := |ids| - 1;
      var mid := RefundAll(s, ids[..n], blocked, faults);
      var r := RefundAll(s, ids, blocked, faults);
      RefundingIsSafe(s, ids[..n], blocked, faults);
      RefundOneIsSafe(mid, ids[n], blocked, faults(ids[n]));
      assert r.chain.paid[|s.chain.paid|..] == mid.chain.paid[|s.chain.paid|..] + r.chain.paid[|mid.chain.paid|..];
      assert ids[n] in ids && forall x :: x in ids[..n] ==> x in ids;
    }
  }

  lemma {:induction false} UnblockedIsCleared(s: Cancelling, ids: seq<nat>, faults: nat -> Faults, t: nat)
    requires t in ids && t !in CancelAll(s, ids, faults).blocked
    ensures Cleared(s.chain, faults(t), t) && t !in CancelAll(s, ids, faults).chain.listing
  {
    hide CancelOne;
    var n := |ids| - 1;
    var before := CancelAll(s, ids[..n], faults);
    assert ids == ids[..n] + [ids[n]];
    CancellingIsSafe(s, ids[..n], faults);
    CancelOneEffects(before, ids[n], faults(ids[n]));
    if t in ids[..n] {
      UnblockedIsCleared(s, ids[..n], faults, t);
    } else {
      NotVisited(s, ids[..n], faults, t);
    }
  }

  lemma {:induction false} NotVisited(s: Cancelling, ids: seq<nat>, faults: nat -> Faults, t: nat)
    requires t !in ids
    ensures t in CancelAll(s, ids, faults).chain.listing <==> t in s.chain.listing
    ensures t in CancelAll(s, ids, faults).blocked <==> t in s.blocked
  {
    hide CancelOne;
    if ids != [] {
      var n := |ids| - 1;
      assert ids == ids[..n] + [ids[n]];
      NotVisited(s, ids[..n], faults, t);
      CancelOneEffects(CancelAll(s, ids[..n], faults), ids[n], faults(ids[n]));
    }
  }

  /**
   * One sweep under any faults pays each token at most once ever, pays only
   * tokens it found unlisted or unlisted itself, and never adds unsettled work.
   */
  lemma SweepIsSafe(c: Chain, db: Db, ids: seq<nat>, faults: nat -> Faults)
    requires Honest(c, db)
    ensures var r := Sweep(c, db, ids, faults);
            && Honest(r.chain, r.db) && Unsettled(r.chain) <= Unsettled(c)
            && c.paid <= r.chain.paid
            && forall t :: t in r.chain.paid[|c.paid|..] ==> t in ids && Cleared(c, faults(t), t)
  {
    hide Unsettled, Cleared;
    var s := Cancelling(c, db, 0, 0, 0, {});
    var p := Phase1(c, db, ids, faults);
    CancellingIsSafe(s, ids, faults);
    RefundingIsSafe(Refunding(p.chain, p.db, 0, 0, 0, 0, 0), ids, p.blocked, faults);
    var r := Sweep(c, db, ids, faults);
    forall t | t in r.chain.paid[|c.paid|..]
      ensures Cleared(c, faults(t), t)
    {
      UnblockedIsCleared(s, ids, faults, t);
    }
  }

  /** Any number of sweeps, each over its own tokens and with its own faults. */
  function Sweeps(c: Chain, db: Db, runs: seq<(seq<nat>, nat -> Faults)>): (Chain, Db)
  {
    if runs == [] then (c, db)
    else
      var before := Sweeps(c, db, runs[..|runs| - 1]);
      var r := Sweep(before.0, before.1, runs[|runs| - 1].0, runs[|runs| - 1].1);
      (r.chain, r.db)
  }

  lemma {:induction false} RerunningIsSafe(c: Chain, db: Db, runs: seq<(seq<nat>, nat -> Faults)>)
    requires Honest(c, db)
    ensures var (c', db') := Sweeps(c, db, runs);
            Honest(c', db') && c.paid <= c'.paid && Unsettled(c') <= Unsettled(c)
  {
    hide Honest, Unsettled, Sweep;
    if runs != [] {
      var n := |runs| - 1;
      RerunningIsSafe(c, db, runs[..n]);
      var before := Sweeps(c, db, runs[..n]);
      SweepIsSafe(before.0, before.1, runs[n].0, runs[n].1);
    }
  }

  // ---- conservation: the pool pays exactly for the tickets that leave sold ----

  ghost function Owed(c: Chain, ids: seq<nat>): nat
  {
    if ids == [] then 0
    else Owed(c, ids[..|ids| - 1]) + if Raw(c, ids[|ids| - 1]) == Sold then Price(c, ids[|ids| - 1]) else 0
  }

  lemma {:induction false} OwedAfterPaying(c: Chain, ids: seq<nat>, t: nat)
    requires Distinct(ids) && Raw(c, t) == Sold && CanRefund(c, t)
    ensures Owed(c, ids) == Owed(PayRefund(c, t), ids) + if t in ids then Price(c, t) else 0
  {
    if ids != [] {
      assert ids == ids[..|ids| - 1] + [ids[|ids| - 1]];
      OwedAfterPaying(c, ids[..|ids| - 1], t);
    }
  }

  lemma {:induction false} OwedIgnoresListings(c: Chain, d: Chain, ids: seq<nat>)
    requires d.raw == c.raw && d.price == c.price
    ensures Owed(d, ids) == Owed(c, ids)
  {
    if ids != [] {
      OwedIgnoresListings(c, d, ids[..|ids| - 1]);
    }
  }

  lemma {:induction false} RefundingConserves(s: Refunding, ids: seq<nat>, all: seq<nat>, blocked: set<nat>,
          faults: nat -> Faults)
    requires Distinct(all) && forall t :: t in ids ==> t in all
    ensures var r := RefundAll(s, ids, blocked, faults);
            && s.chain.pool + Owed(r.chain, all) == r.chain.pool + Owed(s.chain, all)
            && r.chain.price == s.chain.price && r.chain.ended == s.chain.ended
            && r.chain.refundsEnabled == s.chain.refundsEnabled && r.chain.listing == s.chain.listing
  {
    hide Owed, Distinct, RefundOne;
    if ids != [] {
      var n := |ids| - 1;
      assert ids[n] in ids && forall t :: t in ids[..n] ==> t in ids;
      RefundingConserves(s, ids[..n], all, blocked, faults);
      var mid := RefundAll(s, ids[..n], blocked, faults);
      RefundOneEffects(mid, ids[n], blocked, faults(ids[n]));
      if CanRefund(mid.chain, ids[n]) {
        OwedAfterPaying(mid.chain, all, ids[n]);
      }
    }
  }

  /** Whatever fails, the pool falls by exactly the price of the tokens that stopped being sold. */
  lemma PoolPaysForRefunds(c: Chain, db: Db, ids: seq<nat>, faults: nat -> Faults)
    requires Distinct(ids)
    ensures var r := Sweep(c, db, ids, faults);
            c.pool - r.chain.pool == Owed(c, ids) - Owed(r.chain, ids)
  {
    var p := Phase1(c, db, ids, faults);
    CancellingIsSafe(Cancelling(c, db, 0, 0, 0, {}), ids, faults);
    OwedIgnoresListings(c, p.chain, ids);
    RefundingConserves(Refunding(p.chain, p.db, 0, 0, 0, 0, 0), ids, ids, p.blocked, faults);
  }

  // ---- convergence: when a sweep without faults settles everything ----

  ghost predicate NoFaults(faults: nat -> Faults, ids: seq<nat>)
  {
    forall t :: t in ids ==> faults(t) == NO_FAULTS
  }

  ghost predicate NoneSold(c: Chain, ids: seq<nat>)
  {
    forall t :: t in ids ==> Raw(c, t) != Sold
  }

  /** Refunds are open, the tickets still read as sold, each has a price, and the pool covers them all. */
  ghost predicate Payable(c: Chain, ids: seq<nat>)
  {
    && !c.ended && c.refundsEnabled
    && (forall t :: t in ids && Raw(c, t) == Sold ==> Price(c, t) > 0)
    && Owed(c, ids) <= c.pool
  }

  lemma {:induction false} OnlyStuckListingsBlock(s: Cancelling, ids: seq<nat>, faults: nat -> Faults)
    requires NoFaults(faults, ids)
    ensures forall t :: t in CancelAll(s, ids, faults).blocked ==>
      t in s.blocked || (t in s.chain.listing && !CanCancel(s.chain, t))
  {
    if ids != [] {
      var n := |ids| - 1;
      assert ids == ids[..n] + [ids[n]] && ids[n] in ids;
      OnlyStuckListingsBlock(s, ids[..n], faults);
      CancellingIsSafe(s, ids[..n], faults);
      GoodCancelBlocks(CancelAll(s, ids[..n], faults), ids[n]);
    }
  }

  lemma GoodCancelBlocks(s: Cancelling, t: nat)
    ensures CancelOne(s, t, NO_FAULTS).blocked
            == s.blocked + if t in s.chain.listing && !CanCancel(s.chain, t) then {t} else {}
  {
  }

  lemma {:induction false} OwedCovers(c: Chain, ids: seq<nat>, t: nat)
    requires t in ids && Raw(c, t) == Sold
    ensures Price(c, t) <= Owed(c, ids)
  {
    var n := |ids| - 1;
    assert ids == ids[..n] + [ids[n]];
    if t in ids[..n] {
      OwedCovers(c, ids[..n], t);
    }
  }

  lemma {:induction false} NoneSoldOwesNothing(c: Chain, ids: seq<nat>)
    requires NoneSold(c, ids)
    ensures Owed(c, ids) == 0
  {
    if ids != [] {
      assert ids[|ids| - 1] in ids && forall t :: t in ids[..|ids| - 1] ==> t in ids;
      NoneSoldOwesNothing(c, ids[..|ids| - 1]);
    }
  }

  /** The sold tokens can be reached: none is blocked or listed. */
  ghost predicate Reachable(c: Chain, ids: seq<nat>, blocked: set<nat>)
  {
    forall t :: t in ids && Raw(c, t) == Sold ==> t !in blocked && t !in c.listing
  }

  lemma {:induction false} PayableIsPaid(s: Refunding, ids: seq<nat>, all: seq<nat>, blocked: set<nat>,
          faults: nat -> Faults)
    requires Distinct(all) && (forall t :: t in ids ==> t in all) && NoFaults(faults, ids)
    requires Payable(s.chain, all) && Reachable(s.chain, all, blocked)
    ensures var r := RefundAll(s, ids, blocked, faults);
            Payable(r.chain, all) && Reachable(r.chain, all, blocked) && NoneSold(r.chain, ids)
  {
    hide Owed, Distinct, RefundOne;
    if ids != [] {
      var n := |ids| - 1;
      assert ids == ids[..n] + [ids[n]] && ids[n] in ids;
      PayableIsPaid(s, ids[..n], all, blocked, faults);
      PayOne(RefundAll(s, ids[..n], blocked, faults), ids[n], all, blocked);
    }
  }

  lemma PayOne(s: Refunding, t: nat, all: seq<nat>, blocked: set<nat>)
    requires Distinct(all) && t in all && Payable(s.chain, all) && Reachable(s.chain, all, blocked)
    ensures var r := RefundOne(s, t, blocked, NO_FAULTS);
            && Payable(r.chain, all) && Reachable(r.chain, all, blocked) && Raw(r.chain, t) != Sold
            && forall x :: Raw(r.chain, x) == Sold ==> Raw(s.chain, x) == Sold
  {
    hide Owed, Distinct;
    if Raw(s.chain, t) == Sold {
      OwedCovers(s.chain, all, t);
      OwedAfterPaying(s.chain, all, t);
    }
  }

  lemma {:induction false} ShutMeansUnpaid(s: Refunding, ids: seq<nat>, blocked: set<nat>, faults: nat -> Faults)
    requires s.chain.ended || !s.chain.refundsEnabled
    ensures RefundAll(s, ids, blocked, faults).chain == s.chain
  {
    if ids != [] {
      ShutMeansUnpaid(s, ids[..|ids| - 1], blocked, faults);
    }
  }

  lemma {:induction false} PricelessStaysSold(s: Refunding, ids: seq<nat>, blocked: set<nat>,
          faults: nat -> Faults, t: nat)
    requires Raw(s.chain, t) == Sold && Price(s.chain, t) == 0
    ensures var r := RefundAll(s, ids, blocked, faults).chain;
            Raw(r, t) == Sold && Price(r, t) == 0
  {
    hide RefundOne;
    if ids != [] {
      var n := |ids| - 1;
      PricelessStaysSold(s, ids[..n], blocked, faults, t);
      RefundOneEffects(RefundAll(s, ids[..n], blocked, faults), ids[n], blocked, faults(ids[n]));
    }
  }

  /**
   * A sweep without faults leaves no sold token exactly when there was none, or
   * all of them were payable. In particular, once the ticket contract's end
   * date has passed, a sold ticket reads as expired and is never refunded.
   */
  lemma FaultFreeSweepSettlesIff(c: Chain, db: Db, ids: seq<nat>, faults: nat -> Faults)
    requires Distinct(ids) && NoFaults(faults, ids)
    ensures NoneSold(Sweep(c, db, ids, faults).chain, ids) <==> NoneSold(c, ids) || Payable(c, ids)
  {
    var s := Cancelling(c, db, 0, 0, 0, {});
    var p := Phase1(c, db, ids, faults);
    var s2 := Refunding(p.chain, p.db, 0, 0, 0, 0, 0);
    var r := Sweep(c, db, ids, faults);
    CancellingIsSafe(s, ids, faults);
    OwedIgnoresListings(c, p.chain, ids);
    PoolPaysForRefunds(c, db, ids, faults);
    if Payable(c, ids) {
      SoldAreReachable(c, db, ids, faults);
      PayableIsPaid(s2, ids, ids, p.blocked, faults);
    } else if NoneSold(c, ids) {
      SoldOnlyShrinks(s2, ids, p.blocked, faults);
    } else if NoneSold(r.chain, ids) {
      NoneSoldOwesNothing(r.chain, ids);
      if c.ended || !c.refundsEnabled {
        ShutMeansUnpaid(s2, ids, p.blocked, faults);
      }
      forall t | t in ids && Raw(c, t) == Sold
        ensures Price(c, t) > 0
      {
        if Price(c, t) == 0 {
          PricelessStaysSold(s2, ids, p.blocked, faults, t);
        }
      }
    }
  }

  lemma SoldAreReachable(c: Chain, db: Db, ids: seq<nat>, faults: nat -> Faults)
    requires NoFaults(faults, ids) && !c.ended
    ensures var p := Phase1(c, db, ids, faults);
            Reachable(p.chain, ids, p.blocked)
  {
    var s := Cancelling(c, db, 0, 0, 0, {});
    var p := Phase1(c, db, ids, faults);
    CancellingIsSafe(s, ids, faults);
    OnlyStuckListingsBlock(s, ids, faults);
    forall t | t in ids && Raw(p.chain, t) == Sold
      ensures t !in p.blocked && t !in p.chain.listing
    {
      assert Reported(c, t) == Sold;
      UnblockedIsCleared(s, ids, faults, t);
    }
  }

  /** Refunding never makes a token sold. */
  lemma {:induction false} SoldOnlyShrinks(s: Refunding, ids: seq<nat>, blocked: set<nat>, faults: nat -> Faults)
    ensures forall t :: Raw(RefundAll(s, ids, blocked, faults).chain, t) == Sold ==> Raw(s.chain, t) == Sold
  {
    hide RefundOne;
    if ids != [] {
      var n := |ids| - 1;
      SoldOnlyShrinks(s, ids[..n], blocked, faults);
      RefundOneEffects(RefundAll(s, ids[..n], blocked, faults), ids[n], blocked, faults(ids[n]));
    }
  }

  /** Once nothing is sold, sweeping again pays nothing, whatever fails. */
  lemma SettledStaysUnpaid(c: Chain, db: Db, ids: seq<nat>, faults: nat -> Faults)
    requires NoneSold(c, ids)
    ensures var r := Sweep(c, db, ids, faults);
            r.chain.paid == c.paid && r.chain.pool == c.pool && NoneSold(r.chain, ids)
  {
    var p := Phase1(c, db, ids, faults);
    CancellingIsSafe(Cancelling(c, db, 0, 0, 0, {}), ids, faults);
    NothingToPay(Refunding(p.chain, p.db, 0, 0, 0, 0, 0), ids, p.blocked, faults);
  }

  lemma {:induction false} NothingToPay(s: Refunding, ids: seq<nat>, blocked: set<nat>, faults: nat -> Faults)
    requires NoneSold(s.chain, ids)
    ensures RefundAll(s, ids, blocked, faults).chain == s.chain
  {
    hide RefundOne;
    if ids != [] {
      var n := |ids| - 1;
      assert ids[n] in ids && forall t :: t in ids[..n] ==> t in ids;
      NothingToPay(s, ids[..n], blocked, faults);
      RefundOneEffects(RefundAll(s, ids[..n], blocked, faults), ids[n], blocked, faults(ids[n]));
    }
  }
}
