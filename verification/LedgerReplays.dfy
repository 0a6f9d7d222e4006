/** What replays change, and what rewards add up to, over every run of the ledger. */
module LedgerReplays {
  import opened Sums
  import opened Once
  import opened EventTotals
  import opened Text
  import opened Shares
  import opened Copies
  import opened Ledger
  import opened LedgerLaws
  import opened Options

  // ---- replays ----

  ghost predicate SameTotals(a: Db, b: Db, e: string)
    requires e in a.events && e in b.events
  {
    && a.rows == b.rows
    && b.events[e].funding == a.events[e].funding && b.events[e].refunded == a.events[e].refunded
    && SharesFor(a, e).Keys == SharesFor(b, e).Keys
    && forall h :: h in SharesFor(a, e) ==>
         && SharesFor(b, e)[h].contribution == SharesFor(a, e)[h].contribution
         && SharesFor(b, e)[h].claimed == SharesFor(a, e)[h].claimed
  }

  /** The hash of a confirmed investment has a donation row, whatever happens to its status or overwrites it. */
  ghost predicate OnRecord(db: Db, txHash: string)
  {
    var i := RowWithHash(db.rows, Lower(txHash));
    i >= 0 && db.rows[i].kind == Donation
  }

  lemma RebuildKeepsClaims(rows: seq<Row>, held: map<string, Share>, e: string)
    requires Matches(rows, e, Total(rows, e), held)
    ensures var r := RebuiltShares(rows, held, e);
            && r.Keys == held.Keys
            && forall h :: h in held ==> r[h].claimed == held[h].claimed && r[h].contribution == held[h].contribution
  {
    hide Total, SumOf, ExactPercentage, CalculatePercentage;
    forall h | h in held && h !in Contributors(rows, e)
      ensures SumOf(rows, e, h) == 0
    {
      NoRowsNoSum(rows, e, h);
    }
  }

  /**
   * Confirming a recorded investment again changes a total exactly if it
   * repairs an event that a failed refund left behind.
   */
  lemma ReconfirmingKeepsTotalsIff(db: Db, e: string, w: string, txHash: string, a: Option<int>, redis: Redis,
          broken: bool)
    requires WellFormed(db) && e in db.events && OnRecord(db, txHash) && Tracked(db, e, broken)
    ensures e in ConfirmInvestment(db, e, w, txHash, a, redis).events
    ensures SameTotals(db, ConfirmInvestment(db, e, w, txHash, a, redis), e)
            <==> !(broken && InvestmentReply(db, e, w, txHash, a, redis) == AlreadySynced)
  {
    hide Total, SumOf, Contributors, RebuiltShares, RowWithHash, Lower, CopyIn, ReadCopies, DeleteCopy, Seen,
         StatusAfterFunding;
    if !broken {
      RebuildKeepsClaims(db.rows, SharesFor(db, e), e);
    }
  }

  lemma {:induction false} MarkingKeepsHashes(rows: seq<Row>, e: string, w: string, hash: string)
    ensures RowWithHash(MarkRefunded(rows, e, w), hash) == RowWithHash(rows, hash)
  {
    if rows != [] {
      MarkingKeepsHashes(rows[..|rows| - 1], e, w, hash);
      var m := MarkRefunded(rows, e, w);
      assert m[..|m| - 1] == MarkRefunded(rows[..|rows| - 1], e, w);
    }
  }

  lemma {:induction false} OverwritingKeepsHashes(rows: seq<Row>, i: nat, r: Row, hash: string)
    requires i < |rows| && r.txHash == rows[i].txHash
    ensures RowWithHash(rows[i := r], hash) == RowWithHash(rows, hash)
  {
    var m := rows[i := r];
    if i < |rows| - 1 {
      assert m[..|m| - 1] == rows[..|rows| - 1][i := r];
      OverwritingKeepsHashes(rows[..|rows| - 1], i, r, hash);
    } else {
      assert m[..|m| - 1] == rows[..|rows| - 1];
    }
  }

  lemma AppendKeepsHash(rows: seq<Row>, r: Row, hash: string)
    requires RowWithHash(rows, hash) >= 0 && (r.txHash == hash ==> RowWithHash(rows, r.txHash) == -1)
    ensures RowWithHash(rows + [r], hash) == RowWithHash(rows, hash)
  {
    assert (rows + [r])[..|rows|] == rows;
  }

  lemma RecordStays(db: Db, s: Step, txHash: string)
    requires OnRecord(db, txHash) && Genuine(db, s)
    ensures OnRecord(Apply(db, s), txHash)
  {
    hide RebuiltShares, RepoShares, HasConfirmed, IncrementClaimed, Lower, Total, RowWithHash, MarkRefunded, Decide,
         Delta,
         CopyIn, ReadCopies, DeleteCopy, Seen, StatusAfterFunding;
    var hash := Lower(txHash);
    var i := RowWithHash(db.rows, hash);
    match s
    case Invest(e2, w2, tx, a, redis) =>
      if InvestmentReply(db, e2, w2, tx, a, redis) == Synced {
        AppendKeepsHash(db.rows, Donated(e2, w2, a.value, Lower(tx)), hash);
      }
    case InvestHere(e2, w2, a, tx, _) => AppendKeepsHash(db.rows, Donated(e2, w2, a, tx), hash);
    case ClaimRefund(e2, w2, _, _) =>
      MarkingKeepsHashes(db.rows, e2, w2, hash);
      MarkedRow(db.rows, e2, w2, i);
    case RefundLog(e2, w2, _, _, _, _) =>
      MarkingKeepsHashes(db.rows, e2, w2, hash);
      MarkedRow(db.rows, e2, w2, i);
    case InvestLog(e2, w2, tx, a) =>
      var k := RowWithHash(db.rows, Lower(tx));
      if k >= 0 {
        OverwritingKeepsHashes(db.rows, k, Donated(e2, w2, a, Lower(tx)), hash);
      } else {
        AppendKeepsHash(db.rows, Donated(e2, w2, a, Lower(tx)), hash);
      }
    case _ =>
  }

  /**
   * Confirming an investment again after any run changes no total, refunds or
   * not, unless a failed refund left the event behind.
   */
  lemma {:induction false} ReconfirmingAfterAnyRun(
      db: Db, steps: seq<Step>, e: string, w: string, txHash: string, a: Option<int>, redis: Redis, again: Redis)
    requires Sound(db) && InvestmentReply(db, e, w, txHash, a, redis) == Synced
    requires GenuineRun(ConfirmInvestment(db, e, w, txHash, a, redis), steps)
    ensures var first := ConfirmInvestment(db, e, w, txHash, a, redis);
            var later := Run(first, steps);
            && e in first.events && e in later.events && OnRecord(later, txHash)
            && e in ConfirmInvestment(later, e, w, txHash, a, again).events
            && (SameTotals(later, ConfirmInvestment(later, e, w, txHash, a, again), e)
                <==> !(Broken(first, steps, e) && InvestmentReply(later, e, w, txHash, a, again) == AlreadySynced))
  {
    hide Apply, Genuine, SameTotals, Sound, WellFormed, Tracked, Broken, OnRecord, InvestmentReply, ConfirmInvestment;
    var s, first := Invest(e, w, txHash, a, redis), ConfirmInvestment(db, e, w, txHash, a, redis);
    FirstConfirmed(db, e, w, txHash, a, redis);
    RecordAfter(first, steps, txHash);
    TrackedRun(first, steps, e);
    ReconfirmingKeepsTotalsIff(Run(first, steps), e, w, txHash, a, again, Broken(first, steps, e));
  }

  lemma FirstConfirmed(db: Db, e: string, w: string, txHash: string, a: Option<int>, redis: Redis)
    requires Sound(db) && InvestmentReply(db, e, w, txHash, a, redis) == Synced
    ensures var first := ConfirmInvestment(db, e, w, txHash, a, redis);
            Sound(first) && e in first.events && OnRecord(first, txHash)
  {
    var s, first := Invest(e, w, txHash, a, redis), ConfirmInvestment(db, e, w, txHash, a, redis);
    assert Apply(db, s) == first && forall e2 :: !Breaks(db, s, e2);
    hide Sound, Matches, RebuiltShares, Total, CopyIn, ReadCopies, DeleteCopy, Seen;
    SoundStep(db, s);
  }

  lemma {:induction false} RecordAfter(db: Db, steps: seq<Step>, txHash: string)
    requires OnRecord(db, txHash) && GenuineRun(db, steps)
    ensures OnRecord(Run(db, steps), txHash)
  {
    hide Apply, Genuine, OnRecord;
    if steps != [] {
      RecordAfter(db, steps[..|steps| - 1], txHash);
      RecordStays(Run(db, steps[..|steps| - 1]), steps[|steps| - 1], txHash);
    }
  }

  /** The step leaves a confirmed row for the wallet: a new one, or an old one confirmed again. */
  predicate Opens(db: Db, s: Step, e: string, w: string)
  {
    match s
    case Invest(e2, w2, tx, a, redis) => e2 == e && w2 == w && InvestmentReply(db, e, w, tx, a, redis) == Synced
    case InvestHere(e2, w2, a, _, redis) => e2 == e && w2 == w && OffChainReply(db, e, w, a, redis) == Synced
    case InvestLog(e2, w2, tx, _) => e2 == e && w2 == w && e in db.events && HashFree(db.rows, Lower(tx))
    case _ => false
  }

  /** The row is the wallet's only confirmed one. */
  predicate OnlyConfirmed(rows: seq<Row>, i: nat, e: string, w: string)
  {
    && i < |rows| && Counts(rows[i], e) && rows[i].contributor == w
    && forall j :: 0 <= j < |rows| && j != i ==> !(Counts(rows[j], e) && rows[j].contributor == w)
  }

  /** The step flips the wallet's confirmed rows, or overwrites the last of them. */
  predicate Closes(db: Db, s: Step, e: string, w: string)
  {
    match s
    case ClaimRefund(e2, w2, a, redis) => e2 == e && w2 == w && RefundReply(db, e, w, a, redis) == Synced
    case RefundLog(e2, w2, _, _, _, _) => e2 == e && w2 == w && e in db.events
    case InvestLog(e2, _, tx, _) =>
      var i := RowWithHash(db.rows, Lower(tx));
      e2 in db.events && i >= 0 && OnlyConfirmed(db.rows, i, e, w)
    case _ => false
  }

  /** In a run, the wallet has had a confirmed row since its last refund, and it was not overwritten. */
  predicate Reopened(db: Db, steps: seq<Step>, e: string, w: string)
  {
    steps != [] &&
    var before, s := steps[..|steps| - 1], steps[|steps| - 1];
    Opens(Run(db, before), s, e, w) || (Reopened(db, before, e, w) && !Closes(Run(db, before), s, e, w))
  }

  lemma AppendConfirms(rows: seq<Row>, r: Row, e: string, w: string)
    requires r.kind == Donation && r.status == Confirmed
    ensures HasConfirmed(rows + [r], e, w) <==> HasConfirmed(rows, e, w) || (r.eventId == e && r.contributor == w)
  {
    assert forall x :: x in rows + [r] <==> x in rows || x == r;
  }

  lemma OverwriteConfirms(rows: seq<Row>, i: nat, r: Row, e: string, w: string)
    requires i < |rows| && r.kind == Donation && r.status == Confirmed
    ensures HasConfirmed(rows[i := r], e, w)
            <==> (r.eventId == e && r.contributor == w) || (HasConfirmed(rows, e, w) && !OnlyConfirmed(rows, i, e, w))
  {
    var m := rows[i := r];
    assert m[i] == r && r in m;
    forall j | 0 <= j < |rows| && j != i
      ensures m[j] == rows[j] && rows[j] in m && rows[j] in rows
    {
      assert m[j] in m;
    }
    assert rows[i] in rows;
  }

  lemma MarkConfirms(rows: seq<Row>, e2: string, w2: string, e: string, w: string)
    requires Named(rows)
    ensures HasConfirmed(MarkRefunded(rows, e2, w2), e, w) <==> HasConfirmed(rows, e, w) && (e != e2 || w != w2)
  {
    hide Total, SumOf, MarkRefunded, HasConfirmed;
    MarkingKeepsNames(rows, e2, w2);
    if e != e2 || w != w2 {
      MarkingIsLocal(rows, e2, w2, e, w);
      ConfirmedSum(rows, e, w);
      ConfirmedSum(MarkRefunded(rows, e2, w2), e, w);
    }
  }

  lemma ConfirmedStep(db: Db, s: Step, e: string, w: string)
    requires WellFormed(db) && Genuine(db, s)
    ensures HasConfirmed(Apply(db, s).rows, e, w)
            <==> Opens(db, s, e, w) || (HasConfirmed(db.rows, e, w) && !Closes(db, s, e, w))
  {
    hide RebuiltShares, RepoShares, HasConfirmed, IncrementClaimed, Lower, Total, RowWithHash, MarkRefunded, Decide,
         Delta,
         CopyIn, ReadCopies, DeleteCopy, Seen, StatusAfterFunding, Named;
    match s
    case Invest(e2, w2, tx, a, redis) =>
      if InvestmentReply(db, e2, w2, tx, a, redis) == Synced {
        AppendConfirms(db.rows, Donated(e2, w2, a.value, Lower(tx)), e, w);
      }
    case InvestHere(e2, w2, a, tx, _) => AppendConfirms(db.rows, Donated(e2, w2, a, tx), e, w);
    case ClaimRefund(e2, w2, _, _) => MarkConfirms(db.rows, e2, w2, e, w);
    case RefundLog(e2, w2, _, _, _, _) => MarkConfirms(db.rows, e2, w2, e, w);
    case InvestLog(e2, w2, tx, a) =>
      var i := RowWithHash(db.rows, Lower(tx));
      AppendConfirms(db.rows, Donated(e2, w2, a, Lower(tx)), e, w);
      if i >= 0 {
        OverwriteConfirms(db.rows, i, Donated(e2, w2, a, Lower(tx)), e, w);
      }
    case _ =>
  }

  lemma {:induction false} ConfirmedRun(db: Db, steps: seq<Step>, e: string, w: string)
    requires WellFormed(db) && GenuineRun(db, steps) && !HasConfirmed(db.rows, e, w)
    ensures WellFormed(Run(db, steps)) && Run(db, steps).events.Keys == db.events.Keys
    ensures HasConfirmed(Run(db, steps).rows, e, w) <==> Reopened(db, steps, e, w)
  {
    hide Apply, Genuine, WellFormed, HasConfirmed, Opens, Closes;
    if steps != [] {
      var before := steps[..|steps| - 1];
      ConfirmedRun(db, before, e, w);
      WellFormedStep(Run(db, before), steps[|steps| - 1]);
      ConfirmedStep(Run(db, before), steps[|steps| - 1], e, w);
    }
  }

  /**
   * A refund confirmation, replayed after any run, is guarded by the wallet's
   * rows and not by its transaction hash: it changes nothing but the cache
   * exactly if no row of the wallet was confirmed since its last refund, or the
   * event is read as unpublished.
   */
  lemma RefundReplayHarmlessIff(db: Db, steps: seq<Step>, e: string, w: string, a: Option<int>, redis: Redis,
          again: Redis)
    requires WellFormed(db) && RefundReply(db, e, w, a, redis) == Synced
    requires GenuineRun(ConfirmRefund(db, e, w, a, redis), steps)
    ensures var later := Run(ConfirmRefund(db, e, w, a, redis), steps);
            && e in later.events
            && (ConfirmRefund(later, e, w, a, again).(copies := later.copies) == later
                <==> !(SeenEvent(later, e, again).published
                       && Reopened(ConfirmRefund(db, e, w, a, redis), steps, e, w)))
  {
    hide Apply, Genuine, WellFormed, HasConfirmed, Opens, Closes, ConfirmRefund, Reopened, SeenEvent;
    var s, first := ClaimRefund(e, w, a, redis), ConfirmRefund(db, e, w, a, redis);
    ClaimIsConfirm(db, e, w, a, redis);
    WellFormedStep(db, s);
    ConfirmedStep(db, s, e, w);
    ClaimCloses(db, e, w, a, redis);
    ConfirmedRun(first, steps, e, w);
    ReplayChangesIff(Run(first, steps), e, w, a, again);
  }

  lemma ClaimIsConfirm(db: Db, e: string, w: string, a: Option<int>, redis: Redis)
    ensures Apply(db, ClaimRefund(e, w, a, redis)) == ConfirmRefund(db, e, w, a, redis)
    ensures Genuine(db, ClaimRefund(e, w, a, redis))
  {
  }

  lemma ClaimCloses(db: Db, e: string, w: string, a: Option<int>, redis: Redis)
    ensures Closes(db, ClaimRefund(e, w, a, redis), e, w) <==> RefundReply(db, e, w, a, redis) == Synced
    ensures !Opens(db, ClaimRefund(e, w, a, redis), e, w)
  {
  }

  lemma ReplayChangesIff(db: Db, e: string, w: string, a: Option<int>, redis: Redis)
    requires WellFormed(db) && e in db.events && a.Some? && a.value > 0
    ensures ConfirmRefund(db, e, w, a, redis).(copies := db.copies) == db
            <==> !(SeenEvent(db, e, redis).published && HasConfirmed(db.rows, e, w))
  {
    hide Total, SumOf, MarkRefunded, RebuiltShares, HasConfirmed, CopyIn, ReadCopies, DeleteCopy, Seen;
    if HasConfirmed(db.rows, e, w) {
      MarkingKeepsNames(db.rows, e, w);
      assert MarkRefunded(db.rows, e, w) != db.rows;
    }
  }

  /** Refund confirmed, an older investment confirmed late, refund replayed: the refund is counted twice. */
  lemma LateInvestmentThenReplay(db: Db, e: string, w: string, a: int, txHash: string, b: int)
    requires WellFormed(db) && e in db.events && e !in db.copies && db.events[e].published && w != "" && a > 0
    requires db.events[e].refunded.Exact? && HasConfirmed(db.rows, e, w)
    requires b > 0 && b >= db.events[e].minInvestment && RowWithHash(db.rows, Lower(txHash)) == -1
    ensures var refund, late := ClaimRefund(e, w, Some(a), Works), Invest(e, w, txHash, Some(b), Works);
            var after := Apply(Apply(Apply(db, refund), late), refund);
            e in after.events && after.events[e].refunded == Exact(db.events[e].refunded.n + 2 * a)
  {
    hide Total, SumOf, MarkRefunded, RebuiltShares, HasConfirmed, Lower, RowWithHash, StatusAfterFunding, Named;
    var refund, late := ClaimRefund(e, w, Some(a), Works), Invest(e, w, txHash, Some(b), Works);
    var d1 := Apply(db, refund);
    MarkingKeepsHashes(db.rows, e, w, Lower(txHash));
    assert InvestmentReply(d1, e, w, txHash, Some(b), Works) == Synced;
    var d2 := Apply(d1, late);
    AppendConfirms(d1.rows, Donated(e, w, b, Lower(txHash)), e, w);
    assert HasConfirmed(d2.rows, e, w);
  }

  /** Immediately repeated, a refund confirmation changes nothing but the cache. */
  lemma RefundTwice(db: Db, e: string, w: string, a: Option<int>, redis: Redis, again: Redis)
    requires WellFormed(db) && e in db.events && RefundReply(db, e, w, a, redis) == Synced
    ensures var once := ConfirmRefund(db, e, w, a, redis);
            ConfirmRefund(once, e, w, a, again).(copies := once.copies) == once
  {
    hide Total, SumOf, MarkRefunded, RebuiltShares, HasConfirmed, CopyIn, ReadCopies, DeleteCopy, Seen;
    MarkingKeepsNames(db.rows, e, w);
    assert !HasConfirmed(ConfirmRefund(db, e, w, a, redis).rows, e, w);
  }

  // ---- rewards ----

  ghost function ClaimsOf(db: Db, e: string, h: string): Tally<string>
  {
    ClaimsIn(SharesFor(db, e), h)
  }

  ghost function ClaimsIn(shares: map<string, Share>, h: string): Tally<string>
  {
    if h in shares then Tally(shares[h].claimed, shares[h].rewardTxs) else Tally(0, {})
  }

  /** Neither rebuild changes a claim. */
  lemma RebuildsKeepClaims(rows: seq<Row>, held: map<string, Share>, e: string, h: string)
    ensures ClaimsIn(RebuiltShares(rows, held, e), h) == ClaimsIn(held, h) == ClaimsIn(RepoShares(rows, held, e), h)
  {
    hide Total, SumOf, Contributors, Kept;
  }

  lemma IncrementDelivers(held: map<string, Share>, w: string, amount: int, tx: string, h: string)
    ensures ClaimsIn(IncrementClaimed(held, w, amount, tx), h)
            == if w == h then Deliver(ClaimsIn(held, h), Delivery(Lower(tx), amount)) else ClaimsIn(held, h)
  {
  }

  /** The shares of the event are what they were, or rebuilt. */
  predicate KeptOrRebuilt(held: map<string, Share>, rows: seq<Row>, now: map<string, Share>, e: string)
  {
    now == held || now == RebuiltShares(rows, held, e) || now == RepoShares(rows, held, e)
  }

  lemma SettleShares(db: Db, rows: seq<Row>, e: string, redis: Redis)
    requires e in db.events
    ensures Settle(db, rows, e, redis).rows == rows
    ensures SharesFor(Settle(db, rows, e, redis), e) == RebuiltShares(rows, SharesFor(db, e), e)
  {
    hide RebuiltShares, Total, StatusAfterFunding, ReadCopies, DeleteCopy, CopyIn, Seen;
  }

  lemma RefundShares(db: Db, e: string, w: string, a: Option<int>, redis: Redis)
    ensures var d := ConfirmRefund(db, e, w, a, redis);
            KeptOrRebuilt(SharesFor(db, e), d.rows, SharesFor(d, e), e)
  {
    hide RebuiltShares, RepoShares, Total, MarkRefunded, HasConfirmed, ReadCopies, SeenEvent, CopiesAfter, SharesFor;
    SameShares(Read(db, e, redis), db, e);
    RebuildShares(db, MarkRefunded(db.rows, e, w), e, ConfirmRefund(db, e, w, a, redis));
  }

  lemma RebuildShares(db: Db, rows: seq<Row>, e: string, d: Db)
    ensures d.shares == db.shares ==> SharesFor(d, e) == SharesFor(db, e)
    ensures d.shares == db.shares[e := RebuiltShares(rows, SharesFor(db, e), e)] ==>
      SharesFor(d, e) == RebuiltShares(rows, SharesFor(db, e), e)
  {
    hide RebuiltShares;
  }

  lemma ConfirmShares(db: Db, s: Step, e: string)
    requires Target(s) == Some(e) && (s.Invest? || s.InvestHere? || s.ClaimRefund?)
    ensures KeptOrRebuilt(SharesFor(db, e), Apply(db, s).rows, SharesFor(Apply(db, s), e), e)
  {
    hide Total, RowWithHash, RebuiltShares, RepoShares, Lower, CopyIn, ReadCopies, DeleteCopy, Seen, Settle,
         ConfirmRefund;
    match s
    case Invest(_, w, tx, a, redis) =>
      if e in db.events {
        SettleShares(db, db.rows, e, redis);
        if a.Some? {
          SettleShares(db, db.rows + [Donated(e, w, a.value, Lower(tx))], e, redis);
        }
      }
    case InvestHere(_, w, a, tx, redis) =>
      if e in db.events {
        SettleShares(db, db.rows + [Donated(e, w, a, tx)], e, redis);
      }
    case ClaimRefund(_, w, a, redis) => RefundShares(db, e, w, a, redis);
  }

  lemma LogShares(db: Db, s: Step, e: string)
    requires Target(s) == Some(e) && (s.RefundLog? || s.InvestLog? || s.TicketRefundLog?)
    ensures KeptOrRebuilt(SharesFor(db, e), Apply(db, s).rows, SharesFor(Apply(db, s), e), e)
  {
    hide Total, RowWithHash, MarkRefunded, RebuiltShares, RepoShares, HasConfirmed, Lower, Decide, Delta, DeleteCopy,
         StoreShares,
         Upserted;
    if Apply(db, s).shares == StoreShares(db.shares, e, RepoShares(Apply(db, s).rows, SharesFor(db, e), e)) {
      StoredShares(db, Apply(db, s).rows, e, Apply(db, s));
    }
  }

  lemma RewardShares(db: Db, s: Step, e: string)
    requires Target(s) == Some(e) && s.ClaimReward?
    ensures SharesFor(Apply(db, s), e)
            == if RewardReply(db, e, s.receipt, s.redis) == Synced
               then IncrementClaimed(SharesFor(db, e), s.wallet, s.receipt.value, s.txHash) else SharesFor(db, e)
  {
    hide IncrementClaimed, Lower;
  }

  /** Shares change only by a rebuild or by a reward. */
  lemma SharesStep(db: Db, s: Step, e: string)
    requires Target(s) == Some(e)
    ensures var d, held := Apply(db, s), SharesFor(db, e);
            if s.ClaimReward? && RewardReply(db, e, s.receipt, s.redis) == Synced
            then SharesFor(d, e) == IncrementClaimed(held, s.wallet, s.receipt.value, s.txHash)
            else KeptOrRebuilt(held, d.rows, SharesFor(d, e), e)
  {
    hide Apply, IncrementClaimed, RebuiltShares, RepoShares, SharesFor;
    if s.ClaimReward? {
      RewardShares(db, s, e);
    } else if s.RefundLog? || s.InvestLog? || s.TicketRefundLog? {
      LogShares(db, s, e);
    } else {
      ConfirmShares(db, s, e);
    }
  }

  /** The rewards that a run delivers to one share. */
  ghost function RewardsTo(db: Db, steps: seq<Step>, e: string, h: string): seq<Delivery<string>>
  {
    if steps == [] then []
    else
      var before, s := steps[..|steps| - 1], steps[|steps| - 1];
      RewardsTo(db, before, e, h)
      + if s.ClaimReward? && s.e == e && s.wallet == h && RewardReply(Run(db, before), e, s.receipt, s.redis) == Synced
        then [Delivery(Lower(s.txHash), s.receipt.value)]
        else []
  }

  /** No step but a new reward for this share changes its claimed amount: rebuilds leave it alone. */
  lemma ClaimsStep(db: Db, s: Step, e: string, h: string)
    ensures ClaimsOf(Apply(db, s), e, h)
            == if s.ClaimReward? && s.e == e && s.wallet == h && RewardReply(db, e, s.receipt, s.redis) == Synced
               then Deliver(ClaimsOf(db, e, h), Delivery(Lower(s.txHash), s.receipt.value))
               else ClaimsOf(db, e, h)
  {
    hide Apply, IncrementClaimed, RebuiltShares, RepoShares, ClaimsIn;
    if Target(s) == Some(e) {
      SharesStep(db, s, e);
      RebuildsKeepClaims(Apply(db, s).rows, SharesFor(db, e), e, h);
      if s.ClaimReward? && s.receipt.Some? {
        IncrementDelivers(SharesFor(db, e), s.wallet, s.receipt.value, s.txHash, h);
      }
    } else {
      EventsElsewhere(db, s, e);
    }
  }

  /**
   * Over any run, a share's claimed reward is its start plus one amount per
   * distinct new transaction hash that paid it.
   */
  lemma {:induction false} ClaimedIsSum(db: Db, steps: seq<Step>, e: string, h: string)
    ensures var ds := RewardsTo(db, steps, e, h);
            && ClaimsOf(Run(db, steps), e, h) == DeliverAll(ClaimsOf(db, e, h), ds)
            && ClaimsOf(Run(db, steps), e, h).total
               == ClaimsOf(db, e, h).total + MapSum(FirstDeltas(ds) - ClaimsOf(db, e, h).seen)
  {
    var ds := RewardsTo(db, steps, e, h);
    TotalIsSum(ClaimsOf(db, e, h), ds);
    if steps != [] {
      var before, s := steps[..|steps| - 1], steps[|steps| - 1];
      ClaimedIsSum(db, before, e, h);
      ClaimsStep(Run(db, before), s, e, h);
      var ds' := RewardsTo(db, before, e, h);
      if ds != ds' {
        assert ds[..|ds| - 1] == ds';
      }
    }
  }

  /** Two runs that deliver the same rewards, in any order and multiplicity, end with the same claim. */
  lemma RewardOrderDoesNotMatter(db: Db, a: seq<Step>, b: seq<Step>, e: string, h: string)
    requires Consistent(RewardsTo(db, a, e, h))
    requires forall d :: d in RewardsTo(db, a, e, h) <==> d in RewardsTo(db, b, e, h)
    ensures ClaimsOf(Run(db, a), e, h) == ClaimsOf(Run(db, b), e, h)
  {
    ClaimedIsSum(db, a, e, h);
    ClaimedIsSum(db, b, e, h);
    OrderAndRepeatsDoNotMatter(ClaimsOf(db, e, h), RewardsTo(db, a, e, h), RewardsTo(db, b, e, h));
  }
}
