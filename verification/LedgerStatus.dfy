/**
 * The ledger and the lifecycle tell the same story: what a step of the ledger
 * does to the status of an event, its copy and its readers is one step of the
 * lifecycle, over any run.
 */
module LedgerStatus {
  import opened Copies
  import opened EventTotals
  import opened Options
  import opened Text
  import opened Status
  import opened Shares
  import opened Ledger
  import opened LedgerLaws
  import Lifecycle

  /** An event as the lifecycle sees it. */
  function View(db: Db, e: string, chain: Option<ChainStatus>): Lifecycle.World
    requires e in db.events
  {
    Lifecycle.World(db.events[e].status, chain,
                    if e in db.copies then Some(db.copies[e].status) else None,
                    LoadsOf(db.loading, e))
  }

  function LoadsOf(loading: map<nat, Load>, e: string): map<nat, AppStatus>
  {
    map r | r in loading && loading[r].e == e :: loading[r].row.status
  }

  lemma LoadsPut(loading: map<nat, Load>, r: nat, l: Load, e: string)
    requires r !in loading
    ensures LoadsOf(loading[r := l], e)
            == if l.e == e then LoadsOf(loading, e)[r := l.row.status] else LoadsOf(loading, e)
    ensures r !in LoadsOf(loading, e)
  {
  }

  lemma LoadsDrop(loading: map<nat, Load>, r: nat, e: string)
    requires r in loading
    ensures LoadsOf(loading - {r}, e)
            == if loading[r].e == e then LoadsOf(loading, e) - {r} else LoadsOf(loading, e)
    ensures loading[r].e == e ==> r in LoadsOf(loading, e) && LoadsOf(loading, e)[r] == loading[r].row.status
    ensures loading[r].e != e ==> r !in LoadsOf(loading, e)
  {
  }

  /** A call that only reads the event. */
  function Reading(redis: Redis): Lifecycle.Step
  {
    Lifecycle.RefundClaimed(false, redis)
  }

  /** What the lifecycle makes of a step of the ledger, if the step concerns the event at all. */
  function AsLifecycle(db: Db, s: Step, e: string): Option<Lifecycle.Step>
    requires e in db.events
  {
    match s
    case Invest(e2, w, tx, a, redis) =>
      if e2 != e then None
      else if InvestmentReply(db, e, w, tx, a, redis) !in {Synced, AlreadySynced} then Some(Reading(redis))
      else Some(Lifecycle.Invested(Total(Apply(db, s).rows, e) >= SeenEvent(db, e, redis).goal, redis))
    case InvestHere(e2, w, a, _, redis) =>
      if e2 != e then None
      else if OffChainReply(db, e, w, a, redis) != Synced then Some(Reading(redis))
      else Some(Lifecycle.Invested(Total(Apply(db, s).rows, e) >= SeenEvent(db, e, redis).goal, redis))
    case ClaimRefund(e2, w, a, redis) =>
      if e2 != e then None
      else
        Some(Lifecycle.RefundClaimed(
               RefundReply(db, e, w, a, redis) == Synced && SeenEvent(db, e, redis).refunded.Exact?, redis))
    case RefundLog(e2, _, tx, a, unmet, redis) =>
      if e2 != e then None
      else
        (match Decide(RefundDoc(db.events[e]), ContributionUpdate(tx, a, unmet))
         case ConversionError => None
         case AlreadyApplied => Some(Lifecycle.Delayed(if unmet then Failed else Cancelled, redis))
         case _ => Some(Lifecycle.Delayed(if unmet then Failed else Cancelled, DeleteFails)))
    case InvestLog(_, _, _, _) => None
    case TicketRefundLog(_, _, _) => None
    case ClaimReward(e2, _, _, _, redis) => if e2 != e then None else Some(Reading(redis))
    case Load(reader, e2) =>
      if e2 != e || reader in db.loading then None else Some(Lifecycle.Load(reader))
    case Store(reader) =>
      if reader in db.loading && db.loading[reader].e == e then Some(Lifecycle.Store(reader)) else None
    case Expire(e2) => if e2 != e then None else Some(Lifecycle.Expire)
  }

  /** Contributions are refunded by the contract of a cancelled event only. */
  predicate OnCancelledOnly(s: Step, e: string, chain: Option<ChainStatus>)
  {
    (s.ClaimRefund? || s.RefundLog?) && s.e == e ==> chain == Some(OnCancelled)
  }

  function Follow(w: Lifecycle.World, step: Option<Lifecycle.Step>): Lifecycle.World
  {
    if step.Some? then Lifecycle.Apply(w, step.value) else w
  }

  // ---- reads and writes ----

  lemma ReadView(db: Db, e: string, chain: Option<ChainStatus>, redis: Redis)
    requires e in db.events
    ensures e in Read(db, e, redis).events
    ensures View(Read(db, e, redis), e, chain) == Lifecycle.Looked(View(db, e, chain), redis)
    ensures SeenEvent(db, e, redis).status == Lifecycle.SeenStatus(View(db, e, chain), redis)
  {
  }

  lemma SettleView(db: Db, rows: seq<Row>, e: string, chain: Option<ChainStatus>, redis: Redis)
    requires e in db.events
    ensures var goalReached := Total(rows, e) >= SeenEvent(db, e, redis).goal;
            View(Settle(db, rows, e, redis), e, chain)
            == Lifecycle.InvestmentConfirmed(View(db, e, chain), goalReached, redis)
  {
    hide Total, RebuiltShares;
  }

  lemma OtherView(db: Db, d: Db, e: string, chain: Option<ChainStatus>)
    requires e in db.events && e in d.events && d.events[e].status == db.events[e].status
    requires d.loading == db.loading && CopyIn(d.copies, e) == CopyIn(db.copies, e)
    ensures View(d, e, chain) == View(db, e, chain)
  {
  }

  // ---- one step ----

  predicate SameStep(db: Db, s: Step, e: string, chain: Option<ChainStatus>)
    requires e in db.events
  {
    e in Apply(db, s).events && View(Apply(db, s), e, chain) == Follow(View(db, e, chain), AsLifecycle(db, s, e))
  }

  lemma InvestView(db: Db, s: Step, e: string, chain: Option<ChainStatus>)
    requires e in db.events && s.Invest? && s.e == e
    ensures SameStep(db, s, e, chain)
  {
    hide Settle, Read, Total, Lifecycle.InvestmentConfirmed, InvestmentReply, SeenEvent, View, ReadCopies,
         Lifecycle.Looked;
    var reply := InvestmentReply(db, e, s.wallet, s.txHash, s.receipt, s.redis);
    SettleRows(db, e, s.redis);
    if reply == Synced {
      SyncedHasAmount(db, s);
      SettleView(db, db.rows + [Donated(e, s.wallet, s.receipt.value, Lower(s.txHash))], e, chain, s.redis);
    } else if reply == AlreadySynced {
      SettleView(db, db.rows, e, chain, s.redis);
    } else {
      ReadView(db, e, chain, s.redis);
    }
  }

  lemma SyncedHasAmount(db: Db, s: Step)
    requires s.Invest? && InvestmentReply(db, s.e, s.wallet, s.txHash, s.receipt, s.redis) == Synced
    ensures s.receipt.Some?
  {
  }

  lemma InvestHereView(db: Db, s: Step, e: string, chain: Option<ChainStatus>)
    requires e in db.events && s.InvestHere? && s.e == e
    ensures SameStep(db, s, e, chain)
  {
    hide Settle, Read, Total, Lifecycle.InvestmentConfirmed, OffChainReply, SeenEvent, View, ReadCopies,
         Lifecycle.Looked;
    SettleRows(db, e, s.redis);
    ReadView(db, e, chain, s.redis);
    SettleView(db, db.rows + [Donated(e, s.wallet, s.amount, s.newHash)], e, chain, s.redis);
  }

  lemma SettleRows(db: Db, e: string, redis: Redis)
    requires e in db.events
    ensures forall rows :: Settle(db, rows, e, redis).rows == rows && e in Settle(db, rows, e, redis).events
  {
  }

  lemma RefundView(db: Db, s: Step, e: string, chain: Option<ChainStatus>)
    requires e in db.events && s.ClaimRefund? && s.e == e && OnCancelledOnly(s, e, chain)
    ensures SameStep(db, s, e, chain)
  {
    hide Total, RebuiltShares, MarkRefunded, HasConfirmed, LoadsOf;
  }

  lemma RefundLogView(db: Db, s: Step, e: string, chain: Option<ChainStatus>)
    requires e in db.events && s.RefundLog? && s.e == e && chain == Some(OnCancelled)
    ensures SameStep(db, s, e, chain)
  {
    hide Total, RepoShares, StoreShares, MarkRefunded, Decide, After, LoadsOf;
    var d := Apply(db, s);
    assert d.loading == db.loading;
    var outcome := Decide(RefundDoc(db.events[e]), ContributionUpdate(s.txHash, s.amount, s.unmet));
    if outcome == ConversionError {
      OtherView(db, d, e, chain);
    } else {
      assert d.events[e].status == if s.unmet then Failed else Cancelled;
      assert CopyIn(d.copies, e)
             == AfterDelete(CopyIn(db.copies, e), if outcome == AlreadyApplied then s.redis else DeleteFails);
    }
  }

  lemma OtherLogView(db: Db, s: Step, e: string, chain: Option<ChainStatus>)
    requires e in db.events && (s.InvestLog? || s.TicketRefundLog?) && s.e == e
    ensures SameStep(db, s, e, chain)
  {
    hide Total, RepoShares, StoreShares, Decide, After, HashFree, Upserted, View;
    OtherView(db, Apply(db, s), e, chain);
  }

  lemma LoadView(db: Db, s: Step, e: string, chain: Option<ChainStatus>)
    requires e in db.events && s.Load?
    ensures SameStep(db, s, e, chain)
  {
    hide LoadsOf;
    if s.reader !in db.loading && s.e in db.events {
      LoadsPut(db.loading, s.reader, Ledger.Load.Load(s.e, db.events[s.e]), e);
    }
  }

  lemma StoreView(db: Db, s: Step, e: string, chain: Option<ChainStatus>)
    requires e in db.events && s.Store?
    ensures SameStep(db, s, e, chain)
  {
    hide LoadsOf;
    if s.reader in db.loading {
      LoadsDrop(db.loading, s.reader, e);
    }
  }

  lemma ExpireView(db: Db, s: Step, e: string, chain: Option<ChainStatus>)
    requires e in db.events && s.Expire?
    ensures SameStep(db, s, e, chain)
  {
  }

  lemma RewardView(db: Db, s: Step, e: string, chain: Option<ChainStatus>)
    requires e in db.events && s.ClaimReward? && s.e == e
    ensures SameStep(db, s, e, chain)
  {
    hide IncrementClaimed, LoadsOf;
  }

  lemma SettleCopies(db: Db, rows: seq<Row>, e2: string, redis: Redis, e: string)
    requires e2 in db.events && e2 != e
    ensures Settle(db, rows, e2, redis).loading == db.loading
    ensures CopyIn(Settle(db, rows, e2, redis).copies, e) == CopyIn(db.copies, e)
  {
    hide Total, RebuiltShares, StatusAfterFunding;
  }

  lemma RefundCopies(db: Db, e2: string, w: string, a: Option<int>, redis: Redis, e: string)
    requires e2 != e
    ensures var d := ConfirmRefund(db, e2, w, a, redis);
            d.loading == db.loading && CopyIn(d.copies, e) == CopyIn(db.copies, e)
  {
    hide RebuiltShares, Total, MarkRefunded, HasConfirmed, TerminalStatus;
  }

  lemma CopiesElsewhere(db: Db, s: Step, e: string)
    requires !s.Load? && !s.Store? && !s.Expire? && s.e != e
    ensures Apply(db, s).loading == db.loading && CopyIn(Apply(db, s).copies, e) == CopyIn(db.copies, e)
  {
    hide Settle, RebuiltShares, Total, RepoShares, StoreShares, MarkRefunded, Delta, Decide, Upserted, IncrementClaimed,
         HasConfirmed, RowWithHash, TerminalStatus, ConfirmRefund;
    if s.Invest? && s.e in db.events {
      SettleCopies(db, db.rows, s.e, s.redis, e);
      if s.receipt.Some? {
        SettleCopies(db, db.rows + [Donated(s.e, s.wallet, s.receipt.value, Lower(s.txHash))], s.e, s.redis, e);
      }
    } else if s.InvestHere? && s.e in db.events {
      SettleCopies(db, db.rows + [Donated(s.e, s.wallet, s.amount, s.newHash)], s.e, s.redis, e);
    } else if s.ClaimRefund? {
      RefundCopies(db, s.e, s.wallet, s.receipt, s.redis, e);
    }
  }

  lemma ElsewhereView(db: Db, s: Step, e: string, chain: Option<ChainStatus>)
    requires e in db.events && !s.Load? && !s.Store? && !s.Expire? && s.e != e
    ensures SameStep(db, s, e, chain)
  {
    hide Apply, View;
    EventsElsewhere(db, s, e);
    CopiesElsewhere(db, s, e);
    OtherView(db, Apply(db, s), e, chain);
  }

  /** What a step of the ledger does to an event is what the lifecycle says it does. */
  lemma StepIsLifecycleStep(db: Db, s: Step, e: string, chain: Option<ChainStatus>)
    requires e in db.events && OnCancelledOnly(s, e, chain)
    ensures SameStep(db, s, e, chain)
  {
    hide SameStep;
    if s.Load? {
      LoadView(db, s, e, chain);
    } else if s.Store? {
      StoreView(db, s, e, chain);
    } else if s.Expire? {
      ExpireView(db, s, e, chain);
    } else if s.e != e {
      ElsewhereView(db, s, e, chain);
    } else if s.Invest? {
      InvestView(db, s, e, chain);
    } else if s.InvestHere? {
      InvestHereView(db, s, e, chain);
    } else if s.ClaimRefund? {
      RefundView(db, s, e, chain);
    } else if s.ClaimReward? {
      RewardView(db, s, e, chain);
    } else if s.RefundLog? {
      RefundLogView(db, s, e, chain);
    } else {
      OtherLogView(db, s, e, chain);
    }
  }

  // ---- any run ----

  ghost predicate AllOnCancelledOnly(steps: seq<Step>, e: string, chain: Option<ChainStatus>)
  {
    forall s :: s in steps ==> OnCancelledOnly(s, e, chain)
  }

  lemma EventStays(db: Db, s: Step, e: string)
    requires e in db.events
    ensures e in Apply(db, s).events
  {
    hide Settle, ConfirmRefund, ProcessRefundLog;
    if s.Invest? || s.InvestHere? || s.ClaimRefund? || s.RefundLog? {
      if s.e == e {
        StepIsLifecycleStep(db, s, e, Some(OnCancelled));
      } else {
        EventsElsewhere(db, s, e);
      }
    }
  }

  lemma {:induction false} EventRemains(db: Db, steps: seq<Step>, e: string)
    requires e in db.events
    ensures e in Run(db, steps).events
  {
    hide Apply;
    if steps != [] {
      EventRemains(db, steps[..|steps| - 1], e);
      EventStays(Run(db, steps[..|steps| - 1]), steps[|steps| - 1], e);
    }
  }

  /** The steps of a run as the lifecycle sees them. */
  ghost function AllAsLifecycle(db: Db, steps: seq<Step>, e: string): seq<Lifecycle.Step>
    requires e in db.events
  {
    if steps == [] then []
    else
      EventRemains(db, steps[..|steps| - 1], e);
      var seen := AsLifecycle(Run(db, steps[..|steps| - 1]), steps[|steps| - 1], e);
      AllAsLifecycle(db, steps[..|steps| - 1], e) + if seen.Some? then [seen.value] else []
  }

  lemma RunOn(w: Lifecycle.World, steps: seq<Lifecycle.Step>, step: Option<Lifecycle.Step>)
    ensures Lifecycle.Run(w, steps + if step.Some? then [step.value] else []) == Follow(Lifecycle.Run(w, steps), step)
  {
    if step.Some? {
      assert (steps + [step.value])[..|steps|] == steps;
    } else {
      assert steps + [] == steps;
    }
  }

  /**
   * Over any run of the ledger the status of an event, its copy and its
   * readers go through a run of the lifecycle.
   */
  lemma {:induction false} RunIsLifecycleRun(db: Db, steps: seq<Step>, e: string, chain: Option<ChainStatus>)
    requires e in db.events && AllOnCancelledOnly(steps, e, chain)
    ensures e in Run(db, steps).events
    ensures View(Run(db, steps), e, chain) == Lifecycle.Run(View(db, e, chain), AllAsLifecycle(db, steps, e))
  {
    hide Apply, View, AsLifecycle, Follow, Lifecycle.Run, OnCancelledOnly;
    EventRemains(db, steps, e);
    if steps == [] {
      assert Lifecycle.Run(View(db, e, chain), []) == View(db, e, chain) by {
        NoSteps(View(db, e, chain));
      }
    } else {
      var before, s := steps[..|steps| - 1], steps[|steps| - 1];
      RunIsLifecycleRun(db, before, e, chain);
      StepIsLifecycleStep(Run(db, before), s, e, chain);
      RunOn(View(db, e, chain), AllAsLifecycle(db, before, e), AsLifecycle(Run(db, before), s, e));
    }
  }

  lemma NoSteps(w: Lifecycle.World)
    ensures Lifecycle.Run(w, []) == w
  {
  }

  /**
   * So over any run of the ledger the status only moves forward exactly if no
   * step meets its guard; then a cancelled, failed or completed event stays
   * what it is, whoever invests or claims.
   */
  lemma LedgerOnlyMovesForwardIff(db: Db, steps: seq<Step>, e: string, chain: Option<ChainStatus>)
    requires e in db.events && AllOnCancelledOnly(steps, e, chain) && Lifecycle.Linked(View(db, e, chain))
    ensures var w, seen := View(db, e, chain), AllAsLifecycle(db, steps, e);
            && (Lifecycle.AlwaysForward(w, seen) <==> Lifecycle.NoneGoesBack(w, seen))
            && (Lifecycle.NoneGoesBack(w, seen) ==>
                  && e in Run(db, steps).events
                  && Lifecycle.Rank(db.events[e].status) <= Lifecycle.Rank(Run(db, steps).events[e].status)
                  && (Terminal(db.events[e].status) ==> Run(db, steps).events[e].status == db.events[e].status))
  {
    hide AsLifecycle, AllAsLifecycle, Lifecycle.GoesBack, Lifecycle.Linked, Run, OnCancelledOnly, Lifecycle.Rank;
    RunIsLifecycleRun(db, steps, e, chain);
    Lifecycle.StatusOnlyMovesForwardIff(View(db, e, chain), AllAsLifecycle(db, steps, e));
  }

  // ---- what a confirmation stores ----

  /**
   * A confirmed investment stores the confirmed total, and the status that the
   * event was read with, but for a funding event whose total reaches its goal:
   * that one is funded.
   */
  lemma InvestmentStores(db: Db, s: Step, e: string)
    requires e in db.events && (s.Invest? || s.InvestHere?) && s.e == e
    requires s.Invest? ==> InvestmentReply(db, e, s.wallet, s.txHash, s.receipt, s.redis) in {Synced, AlreadySynced}
    requires s.InvestHere? ==> OffChainReply(db, e, s.wallet, s.amount, s.redis) == Synced
    ensures e in Apply(db, s).events
    ensures var seen, after, rows := SeenEvent(db, e, s.redis), Apply(db, s).events[e], Apply(db, s).rows;
            && after.funding == Total(rows, e)
            && (after.status == Funded
                <==> seen.status == Funded || (seen.status == Funding && after.funding >= seen.goal))
            && (after.status != Funded ==> after.status == seen.status)
            && after.(funding := 0, status := Funding) == db.events[e].(funding := 0, status := Funding)
  {
    hide Total, RebuiltShares, RowWithHash;
  }

  /**
   * A confirmed refund stores the confirmed total and adds to the refunded
   * amount it read; a failed event stays failed.
   */
  lemma RefundStores(db: Db, s: Step, e: string)
    requires e in db.events && s.ClaimRefund? && s.e == e && RefundReply(db, e, s.wallet, s.receipt, s.redis) == Synced
    requires SeenEvent(db, e, s.redis).refunded.Exact?
    ensures e in Apply(db, s).events
    ensures var seen, after, rows := SeenEvent(db, e, s.redis), Apply(db, s).events[e], Apply(db, s).rows;
            && s.receipt.Some? && after.refunded == Exact(seen.refunded.n + s.receipt.value)
            && after.funding == Total(rows, e)
            && (after.status == Failed <==> seen.status == Failed)
            && (after.status != Failed ==> after.status == Cancelled)
            && after.(funding := 0, status := Funding, refunded := Exact(0))
               == db.events[e].(funding := 0, status := Funding, refunded := Exact(0))
  {
    hide Total, RebuiltShares, MarkRefunded, HasConfirmed;
  }

  // ---- which calls are confirmed ----

  /** The row of a confirmed donation. */
  predicate IsDonation(r: Row, e: string, wallet: string, amount: int, txHash: string)
  {
    && r.eventId == e && r.contributor == wallet && r.kind == Donation && r.amount == amount
    && r.txHash == txHash && r.status == Confirmed
  }

  /** An investment is accepted as new exactly for a positive receipt of a published event, with a hash nobody used. */
  lemma InvestmentIsNewIff(db: Db, e: string, wallet: string, txHash: string, receipt: Option<int>, redis: Redis)
    requires e in db.events
    ensures var seen, rows := SeenEvent(db, e, redis), Apply(db, Invest(e, wallet, txHash, receipt, redis)).rows;
            if && seen.published && wallet != "" && receipt.Some? && receipt.value > 0
               && (seen.minInvestment <= 0 || receipt.value >= seen.minInvestment)
               && forall r :: r in db.rows ==> r.txHash != Lower(txHash)
            then && |rows| == |db.rows| + 1 && rows[..|db.rows|] == db.rows
                 && IsDonation(rows[|db.rows|], e, wallet, receipt.value, Lower(txHash))
                 && InvestmentReply(db, e, wallet, txHash, receipt, redis) == Synced
            else rows == db.rows && InvestmentReply(db, e, wallet, txHash, receipt, redis) != Synced
  {
    hide Total, RebuiltShares, Lower;
    var i := RowWithHash(db.rows, Lower(txHash));
    if i >= 0 {
      assert db.rows[i] in db.rows;
    }
  }

  /** An acceptable receipt whose hash was used by one row is a repeat exactly if it is the same wallet's donation. */
  lemma InvestmentIsRepeatIff(db: Db, e: string, wallet: string, txHash: string, receipt: Option<int>,
          redis: Redis, used: Row)
    requires e in db.events && wallet != "" && receipt.Some? && receipt.value > 0 && SeenEvent(db, e, redis).published
    requires SeenEvent(db, e, redis).minInvestment <= 0 || receipt.value >= SeenEvent(db, e, redis).minInvestment
    requires used in db.rows && used.txHash == Lower(txHash)
    requires forall r :: r in db.rows && r.txHash == Lower(txHash) ==> r == used
    ensures var reply := InvestmentReply(db, e, wallet, txHash, receipt, redis);
            && (reply == AlreadySynced <==> used.kind == Donation && used.eventId == e && used.contributor == wallet)
            && (reply == DuplicateHash <==> used.kind != Donation)
            && (reply == BadRequest <==> used.kind == Donation && (used.eventId != e || used.contributor != wallet))
  {
    var i := RowWithHash(db.rows, Lower(txHash));
    assert i >= 0 && db.rows[i] in db.rows;
  }

  /** An off-chain investment is accepted exactly for a funding event and an amount that reaches its minimum. */
  lemma InvestedHereIff(db: Db, e: string, wallet: string, amount: int, newHash: string, redis: Redis)
    requires e in db.events
    ensures var seen, rows := SeenEvent(db, e, redis), Apply(db, InvestHere(e, wallet, amount, newHash, redis)).rows;
            if && seen.status == Funding && wallet != "" && amount > 0
               && (seen.minInvestment <= 0 || amount >= seen.minInvestment)
            then && |rows| == |db.rows| + 1 && rows[..|db.rows|] == db.rows
                 && IsDonation(rows[|db.rows|], e, wallet, amount, newHash)
            else rows == db.rows
  {
    hide Total, RebuiltShares;
  }

  /** A refund claim flips rows exactly if the wallet has a confirmed donation to the published event. */
  lemma RefundClaimedIff(db: Db, e: string, wallet: string, receipt: Option<int>, redis: Redis)
    requires e in db.events
    ensures var d, seen := Apply(db, ClaimRefund(e, wallet, receipt, redis)), SeenEvent(db, e, redis);
            d.rows != db.rows
            <==> && seen.published && receipt.Some? && receipt.value > 0
                 && exists r :: r in db.rows && r.kind == Donation && r.status == Confirmed && r.eventId == e
                                && r.contributor == wallet
  {
    hide Total, RebuiltShares;
    if r :| r in db.rows && Counts(r, e) && r.contributor == wallet {
      var i :| 0 <= i < |db.rows| && db.rows[i] == r;
      MarkedRow(db.rows, e, wallet, i);
    }
  }

  /** A reward is added exactly for a positive receipt of a published event whose hash the share has not seen. */
  lemma RewardClaimedIff(db: Db, e: string, wallet: string, txHash: string, receipt: Option<int>, redis: Redis)
    requires e in db.events
    ensures var held, seen := SharesFor(db, e), SeenEvent(db, e, redis);
            var now := SharesFor(Apply(db, ClaimReward(e, wallet, txHash, receipt, redis)), e);
            if && seen.published && receipt.Some? && receipt.value > 0
               && (wallet in held ==> Lower(txHash) !in held[wallet].rewardTxs)
            then && now.Keys == held.Keys + {wallet} && now - {wallet} == held - {wallet}
                 && now[wallet].claimed == (if wallet in held then held[wallet].claimed else 0) + receipt.value
                 && now[wallet].contribution == (if wallet in held then held[wallet].contribution else 0)
                 && now[wallet].rewardTxs == (if wallet in held then held[wallet].rewardTxs else {}) + {Lower(txHash)}
            else now == held
  {
    hide Lower, ReadCopies;
    var held, now := SharesFor(db, e), SharesFor(Apply(db, ClaimReward(e, wallet, txHash, receipt, redis)), e);
    assert now - {wallet} == held - {wallet};
  }
}
