/** Laws of the ledger over every run of its steps, in any order, with any replays, and with any cached copies. */
module LedgerLaws {
  import opened Sums
  import opened EventTotals
  import opened Text
  import opened Shares
  import opened Copies
  import opened Ledger
  import opened Options

  datatype Step =
    | Invest(e: string, wallet: string, txHash: string, receipt: Option<int>, redis: Redis)
    | InvestHere(e: string, wallet: string, amount: int, newHash: string, redis: Redis)
    | ClaimRefund(e: string, wallet: string, receipt: Option<int>, redis: Redis)
    | RefundLog(e: string, wallet: string, txHash: string, amount: int, unmet: bool, redis: Redis)
    | InvestLog(e: string, wallet: string, txHash: string, amount: int)
    | TicketRefundLog(e: string, txHash: string, amount: int)
    | ClaimReward(e: string, wallet: string, txHash: string, receipt: Option<int>, redis: Redis)
    | Load(reader: nat, e: string)
    | Store(reader: nat)
    | Expire(e: string)

  function Apply(db: Db, s: Step): Db
  {
    match s
    case Invest(e, w, tx, a, redis) => ConfirmInvestment(db, e, w, tx, a, redis)
    case InvestHere(e, w, a, tx, redis) => InvestOffChain(db, e, w, a, tx, redis)
    case ClaimRefund(e, w, a, redis) => ConfirmRefund(db, e, w, a, redis)
    case RefundLog(e, w, tx, a, unmet, redis) => ProcessRefundLog(db, e, w, tx, a, unmet, redis)
    case InvestLog(e, w, tx, a) => ProcessInvestmentLog(db, e, w, tx, a)
    case TicketRefundLog(e, tx, a) => ProcessTicketRefundLog(db, e, tx, a)
    case ClaimReward(e, w, tx, a, redis) => ConfirmReward(db, e, w, tx, a, redis)
    case Load(reader, e) => BeginLoad(db, reader, e)
    case Store(reader) => FinishLoad(db, reader)
    case Expire(e) => ExpireCopy(db, e)
  }

  function Run(db: Db, steps: seq<Step>): Db
  {
    if steps == [] then db else Apply(Run(db, steps[..|steps| - 1]), steps[|steps| - 1])
  }

  // ---- an event that agrees with its rows ----

  /** Funding and shares are what the confirmed rows say. */
  ghost predicate Matches(rows: seq<Row>, e: string, funding: int, shares: map<string, Share>)
  {
    && funding == Total(rows, e)
    && Contributors(rows, e) <= shares.Keys
    && forall h :: h in shares ==>
         && h != "" && shares[h].contribution == SumOf(rows, e, h)
         && 0.0 <= ExactPercentage(shares[h].contribution, funding) - shares[h].percentage < 0.01
  }

  ghost predicate Settled(db: Db, e: string)
    requires e in db.events
  {
    Matches(db.rows, e, db.events[e].funding, SharesFor(db, e))
  }

  /** Every row names its contributor, and donations are positive. */
  ghost predicate Named(rows: seq<Row>)
  {
    forall r :: r in rows ==> r.contributor != "" && (r.kind == Donation ==> r.amount > 0)
  }

  ghost predicate Holders(shares: map<string, Share>)
  {
    "" !in shares
  }

  /** What comes from the chain names a wallet and a positive amount. Generated hashes are new. */
  ghost predicate Genuine(db: Db, s: Step)
  {
    && (s.ClaimReward? ==> s.wallet != "")
    && (s.InvestHere? ==> RowWithHash(db.rows, s.newHash) == -1)
    && (s.InvestLog? ==> s.wallet != "" && s.amount > 0)
  }

  ghost predicate GenuineRun(db: Db, steps: seq<Step>)
  {
    steps != [] ==>
      var before := steps[..|steps| - 1];
      GenuineRun(db, before) && Genuine(Run(db, before), steps[|steps| - 1])
  }

  ghost predicate SameFor(a: seq<Row>, b: seq<Row>, e: string)
  {
    && Total(a, e) == Total(b, e) && Contributors(a, e) == Contributors(b, e)
    && forall h :: SumOf(a, e, h) == SumOf(b, e, h)
  }

  lemma AppendIsLocal(rows: seq<Row>, r: Row, e: string)
    requires r.eventId != e
    ensures SameFor(rows, rows + [r], e)
  {
    assert (rows + [r])[..|rows|] == rows;
    ContributorsAppend(rows + [r], e);
  }

  lemma {:induction false} MarkingIsLocal(rows: seq<Row>, e: string, w: string, e2: string, h: string)
    requires e != e2 || h != w
    ensures SumOf(MarkRefunded(rows, e, w), e2, h) == SumOf(rows, e2, h)
    ensures e != e2 ==> Total(MarkRefunded(rows, e, w), e2) == Total(rows, e2)
    ensures e != e2 ==> Contributors(MarkRefunded(rows, e, w), e2) == Contributors(rows, e2)
  {
    var m := MarkRefunded(rows, e, w);
    if rows != [] {
      MarkingIsLocal(rows[..|rows| - 1], e, w, e2, h);
      assert m[..|m| - 1] == MarkRefunded(rows[..|rows| - 1], e, w);
      ContributorsAppend(rows, e2);
      ContributorsAppend(m, e2);
    }
  }

  /** Refunding takes exactly the wallet's confirmed sum out of the event's total. */
  lemma {:induction false} MarkingTakesOut(rows: seq<Row>, e: string, w: string)
    ensures SumOf(MarkRefunded(rows, e, w), e, w) == 0
    ensures Total(MarkRefunded(rows, e, w), e) == Total(rows, e) - SumOf(rows, e, w)
  {
    var m := MarkRefunded(rows, e, w);
    if rows != [] {
      MarkingTakesOut(rows[..|rows| - 1], e, w);
      assert m[..|m| - 1] == MarkRefunded(rows[..|rows| - 1], e, w);
    }
  }

  lemma {:induction false} MarkedRow(rows: seq<Row>, e: string, w: string, i: nat)
    requires i < |rows|
    ensures MarkRefunded(rows, e, w)[i] == Refund(rows[i], e, w)
  {
    if i < |rows| - 1 {
      MarkedRow(rows[..|rows| - 1], e, w, i);
    }
  }

  lemma MarkingKeepsNames(rows: seq<Row>, e: string, w: string)
    requires Named(rows)
    ensures Named(MarkRefunded(rows, e, w)) && !HasConfirmed(MarkRefunded(rows, e, w), e, w)
  {
    var m := MarkRefunded(rows, e, w);
    forall r | r in m
      ensures r.contributor != "" && (r.kind == Donation ==> r.amount > 0) && !(Counts(r, e) && r.contributor == w)
    {
      var i :| 0 <= i < |m| && m[i] == r;
      MarkedRow(rows, e, w, i);
      assert rows[i] in rows;
    }
  }

  lemma SumsAndPercentages(rows: seq<Row>, e: string, h: string)
    requires Named(rows) && h != ""
    ensures h !in Contributors(rows, e) ==> SumOf(rows, e, h) == 0
    ensures var sum, total := SumOf(rows, e, h), Total(rows, e);
            0.0 <= ExactPercentage(sum, total) - CalculatePercentage(sum, total) < 0.01
  {
    ContributorSumPositive(rows, e, h);
    if h !in Contributors(rows, e) {
      NoRowsNoSum(rows, e, h);
    }
    if Total(rows, e) > 0 {
      PercentagesAgree(SumOf(rows, e, h), Total(rows, e));
    }
  }

  lemma MarkingIsElsewhere(rows: seq<Row>, e: string, w: string, e2: string)
    requires e != e2
    ensures SameFor(rows, MarkRefunded(rows, e, w), e2)
  {
    hide Total, SumOf, Contributors, MarkRefunded;
    MarkingIsLocal(rows, e, w, e2, "");
    forall h
      ensures SumOf(rows, e2, h) == SumOf(MarkRefunded(rows, e, w), e2, h)
    {
      MarkingIsLocal(rows, e, w, e2, h);
    }
  }

  lemma MatchesElsewhere(a: seq<Row>, b: seq<Row>, e: string, funding: int, shares: map<string, Share>)
    requires SameFor(a, b, e)
    ensures Matches(a, e, funding, shares) <==> Matches(b, e, funding, shares)
  {
    hide Total, SumOf, Contributors, ExactPercentage;
  }

  /** A rebuild makes an event agree with its rows whatever its shares said before. */
  lemma RebuiltMatches(rows: seq<Row>, held: map<string, Share>, e: string)
    requires Named(rows) && Holders(held)
    ensures Matches(rows, e, Total(rows, e), RebuiltShares(rows, held, e)) && Holders(RebuiltShares(rows, held, e))
  {
    hide CalculatePercentage, ExactPercentage, Named, SumOf, Total, Contributors;
    forall h | h != "" {
      SumsAndPercentages(rows, e, h);
    }
    GroupsAre(rows, e);
  }

  /** So does the share repository's rebuild. */
  lemma RepoMatches(rows: seq<Row>, held: map<string, Share>, e: string)
    requires Named(rows) && Holders(held)
    ensures Matches(rows, e, Total(rows, e), RepoShares(rows, held, e)) && Holders(RepoShares(rows, held, e))
  {
    hide CalculatePercentage, ExactPercentage, SumOf, Total, Contributors, Kept;
    KeepsAll(rows, e);
    forall h | h != "" {
      SumsAndPercentages(rows, e, h);
    }
    GroupsAre(rows, e);
  }

  lemma RewardMatches(rows: seq<Row>, e: string, funding: int, held: map<string, Share>, w: string,
          amount: int, tx: string)
    requires w != "" && Matches(rows, e, funding, held)
    ensures Matches(rows, e, funding, IncrementClaimed(held, w, amount, tx))
  {
    hide Total, SumOf, Contributors, Lower;
    if w !in held {
      NoRowsNoSum(rows, e, w);
    }
  }

  /** A wallet with a confirmed row has a positive sum. */
  lemma ConfirmedSum(rows: seq<Row>, e: string, w: string)
    requires Named(rows)
    ensures SumOf(rows, e, w) >= 0 && (HasConfirmed(rows, e, w) ==> SumOf(rows, e, w) > 0)
    ensures !HasConfirmed(rows, e, w) ==> MarkRefunded(rows, e, w) == rows && SumOf(rows, e, w) == 0
  {
    ContributorSumPositive(rows, e, w);
    if HasConfirmed(rows, e, w) {
      var r :| r in rows && Counts(r, e) && r.contributor == w;
      InContributors(rows, e, r);
    } else {
      NothingMarked(rows, e, w);
    }
  }

  lemma InContributors(rows: seq<Row>, e: string, r: Row)
    requires r in rows && Counts(r, e) && r.contributor != ""
    ensures r.contributor in Contributors(rows, e)
  {
  }

  lemma {:induction false} NothingMarked(rows: seq<Row>, e: string, w: string)
    requires !HasConfirmed(rows, e, w)
    ensures MarkRefunded(rows, e, w) == rows && SumOf(rows, e, w) == 0
  {
    if rows != [] {
      var init, last := rows[..|rows| - 1], rows[|rows| - 1];
      assert rows == init + [last] && last in rows;
      assert forall r :: r in init ==> r in rows;
      NothingMarked(init, e, w);
    }
  }

  function AmountIf(counts: bool, r: Row): int
  {
    if counts then r.amount else 0
  }

  /** Overwriting a row takes out what the old one counted for and adds what the new one does. */
  lemma {:induction false} Overwritten(rows: seq<Row>, i: nat, r: Row, e: string, h: string)
    requires i < |rows|
    ensures var m, was := rows[i := r], rows[i];
            && Total(m, e) == Total(rows, e) - AmountIf(Counts(was, e), was) + AmountIf(Counts(r, e), r)
            && SumOf(m, e, h) == SumOf(rows, e, h) - AmountIf(Counts(was, e) && was.contributor == h, was)
                                 + AmountIf(Counts(r, e) && r.contributor == h, r)
            && Recorded(m, e) == Recorded(rows, e) - AmountIf(was.eventId == e && was.kind == Donation, was)
                                 + AmountIf(r.eventId == e && r.kind == Donation, r)
    decreases |rows|
  {
    var m := rows[i := r];
    if i < |rows| - 1 {
      assert m[..|m| - 1] == rows[..|rows| - 1][i := r];
      Overwritten(rows[..|rows| - 1], i, r, e, h);
    } else {
      assert m[..|m| - 1] == rows[..|rows| - 1];
    }
  }

  /** All donations ever recorded for an event, whatever their status. */
  ghost function Recorded(rows: seq<Row>, e: string): int
  {
    if rows == [] then 0
    else
      var r := rows[|rows| - 1];
      Recorded(rows[..|rows| - 1], e) + if r.eventId == e && r.kind == Donation then r.amount else 0
  }

  /** Nothing changes for an event that neither row counts for. */
  lemma OverwrittenElsewhere(rows: seq<Row>, i: nat, r: Row, e: string)
    requires i < |rows| && !Counts(rows[i], e) && !Counts(r, e)
    ensures SameFor(rows, rows[i := r], e)
  {
    hide Total, SumOf;
    var m := rows[i := r];
    forall x | Counts(x, e)
      ensures x in rows <==> x in m
    {
      if k: nat :| k < |rows| && rows[k] == x {
        assert m[k] == x;
      }
    }
    assert Contributors(rows, e) == Contributors(m, e);
    hide Contributors;
    Overwritten(rows, i, r, e, "");
    forall h
      ensures SumOf(rows, e, h) == SumOf(m, e, h)
    {
      Overwritten(rows, i, r, e, h);
    }
  }

  // ---- one step ----

  function Target(s: Step): Option<string>
  {
    match s
    case Load(_, _) => None
    case Store(_) => None
    case Expire(_) => None
    case _ => Some(s.e)
  }

  lemma SameRows(rows: seq<Row>, e: string)
    ensures SameFor(rows, rows, e)
  {
  }

  /** A second contribution of one transaction takes the row of the first, which was another event's. */
  predicate Displaces(db: Db, s: Step, e: string)
  {
    s.InvestLog? && s.e in db.events && s.e != e &&
    var i := RowWithHash(db.rows, Lower(s.txHash));
    i >= 0 && Counts(db.rows[i], e)
  }

  /** The rows after a step: appended, marked or overwritten at its own event. */
  lemma RowsElsewhere(db: Db, s: Step, e: string)
    requires Target(s) != Some(e) && !Displaces(db, s, e)
    ensures SameFor(db.rows, Apply(db, s).rows, e)
  {
    hide Total, SumOf, Contributors, SameFor, RowWithHash, MarkRefunded, RebuiltShares, RepoShares, HasConfirmed, Lower,
         IncrementClaimed, Decide, Delta, ReadCopies, DeleteCopy, CopyIn, Seen, StatusAfterFunding;
    SameRows(db.rows, e);
    match s
    case Invest(e2, w, tx, a, redis) =>
      if a.Some? {
        AppendIsLocal(db.rows, Donated(e2, w, a.value, Lower(tx)), e);
      }
    case InvestHere(e2, w, a, tx, _) => AppendIsLocal(db.rows, Donated(e2, w, a, tx), e);
    case ClaimRefund(e2, w, _, _) => MarkingIsElsewhere(db.rows, e2, w, e);
    case RefundLog(e2, w, _, _, _, _) => MarkingIsElsewhere(db.rows, e2, w, e);
    case InvestLog(e2, w, tx, a) =>
      var i := RowWithHash(db.rows, Lower(tx));
      AppendIsLocal(db.rows, Donated(e2, w, a, Lower(tx)), e);
      if i >= 0 && e2 in db.events {
        OverwrittenElsewhere(db.rows, i, Donated(e2, w, a, Lower(tx)), e);
      }
    case _ =>
  }

  /** The funding of the event that loses its row stays what it was. */
  lemma DisplacedTotal(db: Db, s: Step, e: string)
    requires Named(db.rows) && Displaces(db, s, e)
    ensures Total(Apply(db, s).rows, e) < Total(db.rows, e)
    ensures Recorded(Apply(db, s).rows, e) < Recorded(db.rows, e)
  {
    hide Total, SumOf, Recorded, RowWithHash, RepoShares, StoreShares;
    var i := RowWithHash(db.rows, Lower(s.txHash));
    Overwritten(db.rows, i, Donated(s.e, s.wallet, s.amount, Lower(s.txHash)), e, "");
    assert db.rows[i] in db.rows;
  }

  ghost predicate SameEvent(db: Db, d: Db, e: string)
  {
    && SharesFor(d, e) == SharesFor(db, e) && (e in d.events <==> e in db.events)
    && (e in db.events ==> d.events[e] == db.events[e])
  }

  lemma SettleElsewhere(db: Db, rows: seq<Row>, e2: string, redis: Redis, e: string)
    requires e2 in db.events && e2 != e
    ensures SameEvent(db, Settle(db, rows, e2, redis), e)
  {
    hide Total, RebuiltShares, ReadCopies, DeleteCopy, CopyIn, Seen, StatusAfterFunding;
  }

  lemma RefundElsewhere(db: Db, e2: string, w: string, a: Option<int>, redis: Redis, e: string)
    requires e2 != e
    ensures SameEvent(db, ConfirmRefund(db, e2, w, a, redis), e)
  {
    hide Total, MarkRefunded, RebuiltShares, HasConfirmed, ReadCopies, DeleteCopy, CopyIn, Seen, StatusAfterFunding;
  }

  lemma LogsElsewhere(db: Db, e2: string, w: string, tx: string, a: int, unmet: bool, redis: Redis, e: string)
    requires e2 != e
    ensures SameEvent(db, ProcessRefundLog(db, e2, w, tx, a, unmet, redis), e)
    ensures SameEvent(db, ProcessInvestmentLog(db, e2, w, tx, a), e)
  {
    hide Total, RowWithHash, MarkRefunded, RepoShares, Lower, Decide, Delta, ReadCopies, DeleteCopy, CopyIn, Seen,
         Upserted;
  }

  /** A step leaves the other events and their shares alone. */
  lemma EventsElsewhere(db: Db, s: Step, e: string)
    requires Target(s) != Some(e)
    ensures SameEvent(db, Apply(db, s), e)
  {
    hide Settle, ConfirmRefund, ProcessRefundLog, ProcessInvestmentLog, IncrementClaimed, Delta,
         ReadCopies, CopyIn, Seen, Lower, RowWithHash;
    match s
    case Invest(e2, w, tx, a, redis) =>
      if e2 in db.events {
        SettleElsewhere(db, db.rows, e2, redis, e);
        if a.Some? {
          SettleElsewhere(db, db.rows + [Donated(e2, w, a.value, Lower(tx))], e2, redis, e);
        }
      }
    case InvestHere(e2, w, a, tx, redis) =>
      if e2 in db.events {
        SettleElsewhere(db, db.rows + [Donated(e2, w, a, tx)], e2, redis, e);
      }
    case ClaimRefund(e2, w, a, redis) => RefundElsewhere(db, e2, w, a, redis, e);
    case RefundLog(e2, w, tx, a, unmet, redis) => LogsElsewhere(db, e2, w, tx, a, unmet, redis, e);
    case InvestLog(e2, w, tx, a) => LogsElsewhere(db, e2, w, tx, a, true, Down, e);
    case _ =>
  }

  lemma NamedStep(db: Db, s: Step)
    requires Named(db.rows) && Genuine(db, s)
    ensures Named(Apply(db, s).rows)
  {
    hide Total, RowWithHash, MarkRefunded, RebuiltShares, RepoShares, HasConfirmed, Lower, IncrementClaimed, Decide,
         Delta,
         ReadCopies, DeleteCopy, CopyIn, Seen, StatusAfterFunding;
    if s.ClaimRefund? || s.RefundLog? {
      MarkingKeepsNames(db.rows, s.e, s.wallet);
    }
  }

  /** The step rebuilds the event from its rows. */
  predicate Rebuilds(db: Db, s: Step, e: string)
  {
    e in db.events &&
    match s
    case Invest(e2, w, tx, a, redis) => e2 == e && InvestmentReply(db, e, w, tx, a, redis) in {Synced, AlreadySynced}
    case InvestHere(e2, w, a, _, redis) => e2 == e && OffChainReply(db, e, w, a, redis) == Synced
    case ClaimRefund(e2, w, a, redis) =>
      e2 == e && RefundReply(db, e, w, a, redis) == Synced && SeenEvent(db, e, redis).refunded.Exact?
    case RefundLog(e2, _, tx, a, unmet, _) =>
      e2 == e && Decide(RefundDoc(db.events[e]), ContributionUpdate(tx, a, unmet)) != ConversionError
    case InvestLog(e2, _, tx, _) => e2 == e && HashFree(db.rows, Lower(tx))
    case _ => false
  }

  /**
   * The step flips rows of the event and fails on an amount before it stores
   * the new funding, or takes a row away from it and rebuilds another event.
   */
  predicate Breaks(db: Db, s: Step, e: string)
  {
    e in db.events &&
    match s
    case ClaimRefund(e2, w, a, redis) =>
      e2 == e && RefundReply(db, e, w, a, redis) == Synced && SeenEvent(db, e, redis).refunded.Inexact?
    case RefundLog(e2, w, tx, a, unmet, _) =>
      e2 == e && HasConfirmed(db.rows, e, w)
      && Decide(RefundDoc(db.events[e]), ContributionUpdate(tx, a, unmet)) == ConversionError
    case InvestLog(_, _, _, _) => Displaces(db, s, e)
    case _ => false
  }

  /** Exactly when the amount or the stored counter is outside 64 bits, and the log is new, does it fail. */
  lemma LogFailsIff(ev: EventRow, txHash: string, amount: int, unmet: bool)
    ensures Decide(RefundDoc(ev), ContributionUpdate(txHash, amount, unmet)) == ConversionError
            <==> Mark(Lower(txHash), "refundedAmount_contribution") !in ev.processed
                 && !(FitsLong(amount) && ev.refunded.Exact? && FitsLong(ev.refunded.n))
  {
    var u, doc := ContributionUpdate(txHash, amount, unmet), RefundDoc(ev);
    assert u.inc.Keys == {REFUNDED} && u.inc != map[];
    assert Convertible(doc, u.inc) <==> FitsLong(amount) && ev.refunded.Exact? && FitsLong(ev.refunded.n);
  }

  lemma StoredShares(db: Db, rows: seq<Row>, e: string, d: Db)
    requires d.shares == StoreShares(db.shares, e, RepoShares(rows, SharesFor(db, e), e))
    ensures SharesFor(d, e) == RepoShares(rows, SharesFor(db, e), e)
  {
    var written := RepoShares(rows, SharesFor(db, e), e);
    assert SharesFor(db, e).Keys <= written.Keys;
    if written == map[] {
      assert SharesFor(db, e).Keys == {};
    }
  }

  lemma RebuildSettles(db: Db, s: Step, e: string)
    requires Named(db.rows) && Genuine(db, s) && e in db.events && Holders(SharesFor(db, e)) && Rebuilds(db, s, e)
    ensures e in Apply(db, s).events && Settled(Apply(db, s), e) && Holders(SharesFor(Apply(db, s), e))
  {
    hide Matches, Holders, Total, RowWithHash, MarkRefunded, RebuiltShares, RepoShares, HasConfirmed, Lower,
         IncrementClaimed,
         Decide, ReadCopies, DeleteCopy, CopyIn, Seen, StatusAfterFunding, StoreShares, Upserted, RefundDoc,
         ContributionUpdate;
    NamedStep(db, s);
    var d := Apply(db, s);
    if s.RefundLog? || s.InvestLog? {
      StoredShares(db, d.rows, e, d);
      RepoMatches(d.rows, SharesFor(db, e), e);
    } else {
      RebuiltMatches(d.rows, SharesFor(db, e), e);
    }
  }

  lemma BreakUnsettles(db: Db, s: Step, e: string)
    requires Named(db.rows) && Genuine(db, s) && e in db.events && Holders(SharesFor(db, e)) && Breaks(db, s, e)
    requires Target(s) == Some(e)
    ensures var d := Apply(db, s);
            && e in d.events && Holders(SharesFor(d, e))
            && (db.events[e].funding >= Total(db.rows, e) ==> d.events[e].funding > Total(d.rows, e))
  {
    hide Total, SumOf, RowWithHash, MarkRefunded, RebuiltShares, RepoShares, HasConfirmed, Lower, IncrementClaimed,
         Decide, ReadCopies, DeleteCopy, CopyIn, Seen, StatusAfterFunding, StoreShares, RefundDoc, ContributionUpdate;
    MarkingTakesOut(db.rows, e, s.wallet);
    ConfirmedSum(db.rows, e, s.wallet);
    if s.ClaimRefund? {
      MarkingKeepsNames(db.rows, e, s.wallet);
      RebuiltMatches(MarkRefunded(db.rows, e, s.wallet), SharesFor(db, e), e);
    }
  }

  lemma QuietStep(db: Db, s: Step, e: string)
    requires Named(db.rows) && Genuine(db, s) && e in db.events && Holders(SharesFor(db, e))
    requires Target(s) == Some(e) && !Rebuilds(db, s, e) && !Breaks(db, s, e)
    ensures var d := Apply(db, s);
            && d.rows == db.rows && e in d.events && d.events[e].funding == db.events[e].funding
            && Holders(SharesFor(d, e)) && (s.ClaimReward? || SharesFor(d, e) == SharesFor(db, e))
            && (s.ClaimReward? && SharesFor(d, e) != SharesFor(db, e) ==>
                  s.receipt.Some?
                  && SharesFor(d, e) == IncrementClaimed(SharesFor(db, e), s.wallet, s.receipt.value, s.txHash))
  {
    hide Total, SumOf, RowWithHash, MarkRefunded, RebuiltShares, RepoShares, HasConfirmed, Lower,
         Decide, ReadCopies, DeleteCopy, CopyIn, Seen, StatusAfterFunding, StoreShares, RefundDoc, ContributionUpdate;
    if s.RefundLog? {
      ConfirmedSum(db.rows, e, s.wallet);
    }
  }

  // ---- every run ----

  ghost predicate WellFormed(db: Db)
  {
    Named(db.rows) && forall e :: Holders(SharesFor(db, e))
  }

  ghost predicate Sound(db: Db)
  {
    WellFormed(db) && forall e :: e in db.events ==> Settled(db, e)
  }

  /** An event that a failed refund has left behind holds more funding than its rows, until it is rebuilt. */
  ghost predicate Tracked(db: Db, e: string, broken: bool)
    requires e in db.events
  {
    if broken then db.events[e].funding > Total(db.rows, e) else Settled(db, e)
  }

  lemma TargetStep(db: Db, s: Step, e: string, broken: bool)
    requires WellFormed(db) && Genuine(db, s) && Target(s) == Some(e) && e in db.events
    ensures Holders(SharesFor(Apply(db, s), e)) && e in Apply(db, s).events
    ensures Tracked(db, e, broken) ==>
      Tracked(Apply(db, s), e, if Rebuilds(db, s, e) then false else broken || Breaks(db, s, e))
  {
    hide Matches, Total, Rebuilds, Breaks, Apply, IncrementClaimed, SumOf;
    assert Holders(SharesFor(db, e));
    if Rebuilds(db, s, e) {
      RebuildSettles(db, s, e);
    } else if Breaks(db, s, e) {
      FundingCovers(db, e, broken);
      BreakUnsettles(db, s, e);
    } else {
      QuietStep(db, s, e);
      if s.ClaimReward? && Tracked(db, e, broken) && !broken && SharesFor(Apply(db, s), e) != SharesFor(db, e) {
        RewardMatches(db.rows, e, db.events[e].funding, SharesFor(db, e), s.wallet, s.receipt.value, s.txHash);
      }
    }
  }

  lemma FundingCovers(db: Db, e: string, broken: bool)
    requires e in db.events
    ensures Tracked(db, e, broken) ==> db.events[e].funding >= Total(db.rows, e)
  {
    hide Total, SumOf, Contributors;
  }

  /** One step, for every event: what becomes of it is decided by the step's own guards. */
  lemma TrackedStep(db: Db, s: Step, e: string, broken: bool)
    requires WellFormed(db) && Genuine(db, s) && e in db.events && Tracked(db, e, broken)
    ensures e in Apply(db, s).events
    ensures Tracked(Apply(db, s), e, if Rebuilds(db, s, e) then false else broken || Breaks(db, s, e))
  {
    hide Apply, Genuine, WellFormed, Matches, Total;
    if Target(s) == Some(e) {
      TargetStep(db, s, e, broken);
    } else if Displaces(db, s, e) {
      EventsElsewhere(db, s, e);
      FundingCovers(db, e, broken);
      DisplacedBreaks(db, s, e);
    } else {
      NotDisplaced(db, s, e);
      RowsElsewhere(db, s, e);
      EventsElsewhere(db, s, e);
      SameTotal(db.rows, Apply(db, s).rows, e);
      MatchesElsewhere(db.rows, Apply(db, s).rows, e, db.events[e].funding, SharesFor(db, e));
    }
  }

  lemma DisplacedBreaks(db: Db, s: Step, e: string)
    requires WellFormed(db) && Displaces(db, s, e) && e in db.events
    ensures Breaks(db, s, e) && !Rebuilds(db, s, e) && Total(Apply(db, s).rows, e) < Total(db.rows, e)
  {
    hide Apply, Total;
    DisplacedTotal(db, s, e);
  }

  lemma NotDisplaced(db: Db, s: Step, e: string)
    requires Target(s) != Some(e) && !Displaces(db, s, e)
    ensures !Breaks(db, s, e) && !Rebuilds(db, s, e)
  {
  }

  lemma SameTotal(a: seq<Row>, b: seq<Row>, e: string)
    requires SameFor(a, b, e)
    ensures Total(a, e) == Total(b, e)
  {
  }

  lemma WellFormedStep(db: Db, s: Step)
    requires WellFormed(db) && Genuine(db, s)
    ensures WellFormed(Apply(db, s)) && Apply(db, s).events.Keys == db.events.Keys
  {
    hide Apply, Genuine, Named, Holders;
    NamedStep(db, s);
    forall e
      ensures Holders(SharesFor(Apply(db, s), e)) && (e in Apply(db, s).events <==> e in db.events)
    {
      if Target(s) != Some(e) {
        EventsElsewhere(db, s, e);
      } else if e in db.events {
        TargetStep(db, s, e, true);
      } else {
        UnknownEvent(db, s, e);
      }
    }
  }

  lemma UnknownEvent(db: Db, s: Step, e: string)
    requires Target(s) == Some(e) && e !in db.events
    ensures Apply(db, s) == db
  {
  }

  lemma BrokenIsUnsettled(db: Db, e: string)
    requires e in db.events
    ensures Tracked(db, e, true) ==> !Settled(db, e)
  {
    hide Total, SumOf, Contributors, ExactPercentage;
  }

  /** A step leaves every event settled exactly if it does not fail between its rows and its funding. */
  lemma SoundStep(db: Db, s: Step)
    requires Sound(db) && Genuine(db, s)
    ensures Sound(Apply(db, s)) <==> forall e :: !Breaks(db, s, e)
  {
    hide Apply, Genuine, WellFormed, Breaks, Rebuilds, Settled;
    WellFormedStep(db, s);
    forall e | e in db.events
      ensures Settled(Apply(db, s), e) <==> !Breaks(db, s, e)
    {
      assert Settled(db, e);
      TrackedStep(db, s, e, false);
      NotBoth(db, s, e);
      BrokenIsUnsettled(Apply(db, s), e);
    }
    forall e | Breaks(db, s, e)
      ensures e in db.events
    {
      NotBoth(db, s, e);
    }
  }

  /** A refund of more than 64 bits of wei, about 9.2 ETH: its log takes the rows out and leaves the funding. */
  lemma LargeRefundLeavesFunding(db: Db, e: string, w: string, txHash: string, amount: int, unmet: bool, redis: Redis)
    requires Sound(db) && e in db.events && HasConfirmed(db.rows, e, w) && amount > MAX_LONG
    requires Mark(Lower(txHash), "refundedAmount_contribution") !in db.events[e].processed
    ensures var after := Apply(db, RefundLog(e, w, txHash, amount, unmet, redis));
            && e in after.events && !Settled(after, e) && SumOf(db.rows, e, w) > 0
            && after.events[e].funding == Total(after.rows, e) + SumOf(db.rows, e, w)
  {
    hide Total, SumOf, Contributors, MarkRefunded, HasConfirmed, Lower, Decide, RefundDoc, ContributionUpdate,
         RepoShares, Delta;
    LogFailsIff(db.events[e], txHash, amount, unmet);
    MarkingTakesOut(db.rows, e, w);
    ConfirmedSum(db.rows, e, w);
    assert Settled(db, e);
  }

  /** Two contributions of one transaction: the log of the second takes the row of the first, and leaves the funding. */
  lemma SecondContributionDisplaces(db: Db, e: string, other: string, w: string, txHash: string, amount: int)
    requires Sound(db) && e in db.events && other in db.events && w != "" && amount > 0
    requires Displaces(db, InvestLog(e, w, txHash, amount), other)
    ensures var after := Apply(db, InvestLog(e, w, txHash, amount));
            && e in after.events && Settled(after, e)
            && other in after.events && !Settled(after, other) && after.events[other].funding > Total(after.rows, other)
  {
    hide Apply, WellFormed, Settled, Total, Displaces;
    var s := InvestLog(e, w, txHash, amount);
    SoundIsWellFormed(db);
    SettledIsTracked(db, other);
    SettledIsTracked(db, e);
    TrackedStep(db, s, other, false);
    TrackedStep(db, s, e, false);
    BrokenIsUnsettled(Apply(db, s), other);
    DisplacesNotOwn(db, s, other);
  }

  lemma DisplacesNotOwn(db: Db, s: Step, e: string)
    requires Displaces(db, s, e) && e in db.events
    ensures Breaks(db, s, e) && !Rebuilds(db, s, e) && !Breaks(db, s, s.e)
  {
  }

  lemma NotBoth(db: Db, s: Step, e: string)
    ensures Breaks(db, s, e) ==> e in db.events && !Rebuilds(db, s, e)
  {
  }

  /** The event was left behind by a failed refund and not rebuilt since. */
  ghost predicate Broken(db: Db, steps: seq<Step>, e: string)
  {
    steps != [] &&
    var before, s := steps[..|steps| - 1], steps[|steps| - 1];
    !Rebuilds(Run(db, before), s, e) && (Broken(db, before, e) || Breaks(Run(db, before), s, e))
  }

  lemma {:induction false} TrackedRun(db: Db, steps: seq<Step>, e: string)
    requires Sound(db) && GenuineRun(db, steps) && e in db.events
    ensures var d := Run(db, steps);
            WellFormed(d) && d.events.Keys == db.events.Keys && Tracked(d, e, Broken(db, steps, e))
  {
    hide Apply, Genuine, WellFormed, Breaks, Rebuilds, Tracked;
    if steps == [] {
      assert Tracked(db, e, false) by {
        SettledIsTracked(db, e);
      }
      assert WellFormed(db) by {
        SoundIsWellFormed(db);
      }
    } else {
      var before, s := steps[..|steps| - 1], steps[|steps| - 1];
      TrackedRun(db, before, e);
      WellFormedStep(Run(db, before), s);
      TrackedStep(Run(db, before), s, e, Broken(db, before, e));
    }
  }

  lemma SettledIsTracked(db: Db, e: string)
    requires Sound(db) && e in db.events
    ensures Tracked(db, e, false)
  {
  }

  lemma SoundIsWellFormed(db: Db)
    requires Sound(db)
    ensures WellFormed(db)
  {
  }

  /**
   * In every reachable state an event agrees with its rows, and its shares add
   * up to its funding, exactly unless a refund failed on it, for an amount
   * outside 64 bits, after the last rebuild.
   */
  lemma SoundRun(db: Db, steps: seq<Step>, e: string)
    requires Sound(db) && GenuineRun(db, steps) && e in db.events
    ensures e in Run(db, steps).events
    ensures Settled(Run(db, steps), e) <==> !Broken(db, steps, e)
    ensures !Broken(db, steps, e) ==> MapSum(Amounts(SharesFor(Run(db, steps), e))) == Run(db, steps).events[e].funding
  {
    hide Run, Broken, Matches;
    TrackedRun(db, steps, e);
    BrokenIsUnsettled(Run(db, steps), e);
    if !Broken(db, steps, e) {
      SharesAddUp(Run(db, steps), e);
    }
  }

  ghost function Amounts(shares: map<string, Share>): map<string, int>
  {
    map h | h in shares :: shares[h].contribution
  }

  lemma SharesAddUp(db: Db, e: string)
    requires WellFormed(db) && e in db.events && Settled(db, e)
    ensures MapSum(Amounts(SharesFor(db, e))) == db.events[e].funding
  {
    var shares, rows := SharesFor(db, e), db.rows;
    GroupsAddUp(rows, e);
    NamelessSum(rows, e);
    GroupsAre(rows, e);
    forall h | h in shares && h !in Groups(rows, e)
      ensures shares[h].contribution == 0
    {
      NoRowsNoSum(rows, e, h);
    }
    MapSumZeroes(Amounts(shares), Groups(rows, e));
  }
}
