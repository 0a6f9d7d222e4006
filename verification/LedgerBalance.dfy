/** Conservation: funding plus refunds against everything ever recorded. */
module LedgerBalance {
  import opened EventTotals
  import opened Text
  import opened Shares
  import opened Copies
  import opened Ledger
  import opened LedgerLaws
  import opened Options

  // ---- conservation: what was recorded is funding or was refunded ----

  /** The event is settled, and funding plus refunded amount is everything ever recorded for it. */
  ghost predicate Balanced(db: Db, e: string)
    requires e in db.events
  {
    var ev := db.events[e];
    Settled(db, e) && ev.refunded.Exact? && ev.funding + ev.refunded.n == Recorded(db.rows, e)
  }

  /**
   * What keeps an event balanced, step by step: a confirmation must find, in
   * the copy it reads and the amount it adds, exactly the stored amount plus
   * the wallet's confirmed sum; a new log must pay that sum and fit in 64 bits;
   * a repeated or failing log must find nothing left to refund; the log of a
   * contribution must not overwrite a refunded row, or the row of another
   * event; a ticket refund must add nothing.
   */
  ghost predicate ExactStep(db: Db, s: Step, e: string)
    requires e in db.events
  {
    var stored := db.events[e].refunded;
    match s
    case ClaimRefund(e2, w, a, redis) =>
      e2 == e && RefundReply(db, e, w, a, redis) == Synced ==>
        var seen := SeenEvent(db, e, redis).refunded;
        seen.Exact? && stored.Exact? && seen.n + a.value == stored.n + SumOf(db.rows, e, w)
    case RefundLog(e2, w, tx, a, unmet, _) =>
      e2 == e ==>
        if Decide(RefundDoc(db.events[e]), ContributionUpdate(tx, a, unmet)) == Applied
        then a == SumOf(db.rows, e, w) && stored.Exact? && FitsLong(stored.n + a)
        else !HasConfirmed(db.rows, e, w)
    case InvestLog(e2, _, tx, _) =>
      var i := RowWithHash(db.rows, Lower(tx));
      e2 in db.events && i >= 0 && db.rows[i].kind == Donation && db.rows[i].eventId == e ==>
        e2 == e && db.rows[i].status == Confirmed
    case TicketRefundLog(e2, tx, a) =>
      e2 == e && Decide(RefundDoc(db.events[e]), RefundUpdate(tx, REFUNDED, a, "refunding")) == Applied ==> a == 0
    case _ => true
  }

  lemma {:induction false} MarkingKeepsRecorded(rows: seq<Row>, e: string, w: string, e2: string)
    ensures Recorded(MarkRefunded(rows, e, w), e2) == Recorded(rows, e2)
  {
    if rows != [] {
      MarkingKeepsRecorded(rows[..|rows| - 1], e, w, e2);
      var m := MarkRefunded(rows, e, w);
      assert m[..|m| - 1] == MarkRefunded(rows[..|rows| - 1], e, w);
    }
  }

  lemma AppendRecorded(rows: seq<Row>, r: Row, e: string)
    requires r.kind == Donation && r.status == Confirmed
    ensures Recorded(rows + [r], e) - Recorded(rows, e) == Total(rows + [r], e) - Total(rows, e)
    ensures r.eventId != e ==> Recorded(rows + [r], e) == Recorded(rows, e)
  {
    assert (rows + [r])[..|rows|] == rows;
  }

  /** How a step moves the recorded total: an appended row adds to it, an overwritten one leaves it. */
  ghost function Received(db: Db, s: Step, e: string): int
  {
    Recorded(Apply(db, s).rows, e) - Recorded(db.rows, e)
  }

  /** The row that the log of a contribution overwrites. */
  function Existing(db: Db, s: Step): Option<Row>
    requires s.InvestLog?
  {
    var i := RowWithHash(db.rows, Lower(s.txHash));
    if s.e in db.events && i >= 0 && db.rows[i].kind == Donation then Some(db.rows[i]) else None
  }

  function TakenFrom(was: Option<Row>, e: string): int
  {
    if was.Some? && was.value.eventId == e then was.value.amount else 0
  }

  lemma RecordedElsewhere(db: Db, s: Step, e: string)
    requires Target(s) != Some(e)
    ensures Received(db, s, e) == if s.InvestLog? then -TakenFrom(Existing(db, s), e) else 0
  {
    hide Total, SumOf, Contributors, RowWithHash, MarkRefunded, RebuiltShares, RepoShares, HasConfirmed, Lower,
         Recorded,
         IncrementClaimed, Decide, Delta, ReadCopies, DeleteCopy, CopyIn, Seen, StatusAfterFunding;
    match s
    case Invest(e2, w, tx, a, redis) =>
      if a.Some? {
        AppendRecorded(db.rows, Donated(e2, w, a.value, Lower(tx)), e);
      }
    case InvestHere(e2, w, a, tx, _) => AppendRecorded(db.rows, Donated(e2, w, a, tx), e);
    case ClaimRefund(e2, w, _, _) => MarkingKeepsRecorded(db.rows, e2, w, e);
    case RefundLog(e2, w, _, _, _, _) => MarkingKeepsRecorded(db.rows, e2, w, e);
    case InvestLog(e2, w, tx, a) =>
      var i := RowWithHash(db.rows, Lower(tx));
      AppendRecorded(db.rows, Donated(e2, w, a, Lower(tx)), e);
      if i >= 0 && db.rows[i].kind == Donation {
        Overwritten(db.rows, i, Donated(e2, w, a, Lower(tx)), e, "");
      }
    case _ =>
  }

  /** At the step's own event: rows that leave the total, rows that come back to it, and the counter. */
  lemma InvestBalance(db: Db, s: Step, e: string)
    requires WellFormed(db) && Genuine(db, s) && e in db.events && Target(s) == Some(e)
    requires s.Invest? || s.InvestHere? || s.ClaimReward? || s.TicketRefundLog?
    ensures var d := Apply(db, s);
            && Received(db, s, e) == Total(d.rows, e) - Total(db.rows, e) && e in d.events
            && d.events[e].refunded
               == if s.TicketRefundLog?
                  then Delta(db.events[e], RefundUpdate(s.txHash, REFUNDED, s.amount, "refunding")).refunded
                  else db.events[e].refunded
  {
    hide Total, SumOf, Contributors, RowWithHash, RebuiltShares, Lower, Recorded, RefundUpdate,
         IncrementClaimed, Decide, Delta, ReadCopies, DeleteCopy, CopyIn, Seen, StatusAfterFunding;
    match s
    case Invest(e2, w, tx, a, redis) =>
      if a.Some? {
        AppendRecorded(db.rows, Donated(e2, w, a.value, Lower(tx)), e);
      }
    case InvestHere(e2, w, a, tx, _) => AppendRecorded(db.rows, Donated(e2, w, a, tx), e);
    case _ =>
  }

  lemma RefundBalance(db: Db, s: Step, e: string)
    requires WellFormed(db) && Genuine(db, s) && e in db.events && s.ClaimRefund? && s.e == e
    ensures var d, ok := Apply(db, s), RefundReply(db, e, s.wallet, s.receipt, s.redis) == Synced;
            && Received(db, s, e) == 0 && e in d.events
            && Total(d.rows, e) == Total(db.rows, e) - (if ok then SumOf(db.rows, e, s.wallet) else 0)
            && d.events[e].refunded == if ok && SeenEvent(db, e, s.redis).refunded.Exact?
                                       then Exact(SeenEvent(db, e, s.redis).refunded.n + s.receipt.value)
                                       else db.events[e].refunded
  {
    hide Total, SumOf, Contributors, MarkRefunded, RebuiltShares, Recorded, HasConfirmed, ReadCopies, DeleteCopy,
         CopyIn, Seen;
    MarkingKeepsRecorded(db.rows, e, s.wallet, e);
    MarkingTakesOut(db.rows, e, s.wallet);
  }

  lemma DeltaOf(ev: EventRow, txHash: string, field: string, amount: int, status: string)
    ensures var u := RefundUpdate(txHash, field, amount, status);
            && Decide(RefundDoc(ev), u) != NothingToDo
            && Delta(ev, u).refunded
               == (if Decide(RefundDoc(ev), u) == Applied then Plus(ev.refunded, amount) else ev.refunded)
            && (Decide(RefundDoc(ev), u) == Applied ==>
                 FitsLong(amount) && ev.refunded.Exact? && FitsLong(ev.refunded.n))
  {
    var u, doc := RefundUpdate(txHash, field, amount, status), RefundDoc(ev);
    assert u.inc.Keys == {REFUNDED} && u.inc != map[];
    assert Convertible(doc, u.inc) <==> FitsLong(amount) && ev.refunded.Exact? && FitsLong(ev.refunded.n);
  }

  lemma LogBalance(db: Db, s: Step, e: string)
    requires WellFormed(db) && Genuine(db, s) && e in db.events && s.RefundLog? && s.e == e
    ensures var d, o := Apply(db, s), Decide(RefundDoc(db.events[e]), ContributionUpdate(s.txHash, s.amount, s.unmet));
            && Received(db, s, e) == 0 && e in d.events
            && Total(d.rows, e) == Total(db.rows, e) - SumOf(db.rows, e, s.wallet)
            && d.events[e].refunded
               == (if o == Applied then Plus(db.events[e].refunded, s.amount) else db.events[e].refunded)
            && (o == Applied ==> db.events[e].refunded.Exact?)
  {
    hide Total, SumOf, Contributors, MarkRefunded, RepoShares, Recorded, HasConfirmed, DeleteCopy, Decide, RefundDoc,
         Delta, Lower, Plus;
    MarkingKeepsRecorded(db.rows, e, s.wallet, e);
    MarkingTakesOut(db.rows, e, s.wallet);
    DeltaOf(db.events[e], s.txHash, "refundedAmount_contribution", s.amount, if s.unmet then "failed" else "cancelled");
  }

  lemma InvestLogBalance(db: Db, s: Step, e: string)
    requires WellFormed(db) && Genuine(db, s) && e in db.events && s.InvestLog? && s.e == e
    ensures var d, was := Apply(db, s), Existing(db, s);
            && e in d.events && d.events[e].refunded == db.events[e].refunded
            && Total(d.rows, e) - Total(db.rows, e) - Received(db, s, e)
               == if was.Some? && was.value.status != Confirmed then TakenFrom(was, e) else 0
  {
    hide Total, SumOf, Contributors, RowWithHash, RepoShares, Recorded, Lower;
    var i := RowWithHash(db.rows, Lower(s.txHash));
    AppendRecorded(db.rows, Donated(e, s.wallet, s.amount, Lower(s.txHash)), e);
    if i >= 0 && db.rows[i].kind == Donation {
      Overwritten(db.rows, i, Donated(e, s.wallet, s.amount, Lower(s.txHash)), e, "");
    }
  }

  /** From a balanced event, exactly the exact steps lead to a balanced event. */
  lemma BalancedStepIff(db: Db, s: Step, e: string)
    requires WellFormed(db) && Genuine(db, s) && e in db.events && Balanced(db, e)
    ensures e in Apply(db, s).events
    ensures Balanced(Apply(db, s), e) <==> ExactStep(db, s, e)
  {
    hide Total, SumOf, Contributors, Recorded, Apply, Matches, Genuine, WellFormed, HasConfirmed, Lower, RowWithHash,
         SeenEvent;
    var d := Apply(db, s);
    SettledIsBalance(db, e);
    TrackedStep(db, s, e, false);
    BrokenIsUnsettled(d, e);
    SettledIsBalance(d, e);
    if Target(s) != Some(e) {
      ElsewhereBalance(db, s, e);
      EventsElsewhere(db, s, e);
    } else if s.ClaimRefund? {
      RefundBalance(db, s, e);
    } else if s.RefundLog? {
      LogBalance(db, s, e);
      WalletSum(db, e, s.wallet);
    } else if s.InvestLog? {
      InvestLogBalance(db, s, e);
      TakenIff(db, s, e);
    } else {
      InvestBalance(db, s, e);
      if s.TicketRefundLog? {
        DeltaOf(db.events[e], s.txHash, REFUNDED, s.amount, "refunding");
      }
    }
  }

  lemma TakenIff(db: Db, s: Step, e: string)
    requires WellFormed(db) && s.InvestLog?
    ensures var was := Existing(db, s);
            && TakenFrom(was, e) >= 0 && (TakenFrom(was, e) > 0 <==> was.Some? && was.value.eventId == e)
  {
    hide RowWithHash, Lower;
  }

  /** A step at another event keeps the balance of this one unless it takes one of its rows. */
  lemma ElsewhereBalance(db: Db, s: Step, e: string)
    requires WellFormed(db) && e in db.events && Target(s) != Some(e)
    ensures ExactStep(db, s, e) <==> !(s.InvestLog? && TakenFrom(Existing(db, s), e) > 0)
    ensures ExactStep(db, s, e) ==> Received(db, s, e) == 0 && Total(Apply(db, s).rows, e) == Total(db.rows, e)
    ensures !ExactStep(db, s, e) ==>
              Received(db, s, e) < 0 && (Breaks(db, s, e) || Total(Apply(db, s).rows, e) == Total(db.rows, e))
    ensures !Rebuilds(db, s, e)
  {
    hide Apply, Total, SumOf, Contributors, RowWithHash, Lower, WellFormed, HasConfirmed, Decide, Recorded, SeenEvent;
    RecordedElsewhere(db, s, e);
    if s.InvestLog? {
      TakenIff(db, s, e);
    }
    if !Displaces(db, s, e) {
      RowsElsewhere(db, s, e);
      SameTotal(db.rows, Apply(db, s).rows, e);
    }
  }

  lemma WalletSum(db: Db, e: string, w: string)
    requires WellFormed(db)
    ensures SumOf(db.rows, e, w) >= 0 && (HasConfirmed(db.rows, e, w) <==> SumOf(db.rows, e, w) > 0)
  {
    hide SumOf, HasConfirmed, Named;
    ConfirmedSum(db.rows, e, w);
  }

  lemma SettledIsBalance(db: Db, e: string)
    requires e in db.events
    ensures Settled(db, e) ==> db.events[e].funding == Total(db.rows, e)
  {
  }

  /** Balanced at the end of the run and at every earlier point of it. */
  ghost predicate AlwaysBalanced(db: Db, steps: seq<Step>, e: string)
  {
    && e in Run(db, steps).events && Balanced(Run(db, steps), e)
    && (steps != [] ==> AlwaysBalanced(db, steps[..|steps| - 1], e))
  }

  ghost predicate ExactRun(db: Db, steps: seq<Step>, e: string)
  {
    steps != [] ==>
      var before := steps[..|steps| - 1];
      ExactRun(db, before, e) && e in Run(db, before).events && ExactStep(Run(db, before), steps[|steps| - 1], e)
  }

  /**
   * Funding is the confirmed total and, with the refunded amount, everything
   * ever recorded, in every state of a run, exactly when every step is exact.
   */
  lemma {:induction false} ConservedIffRefundsPayExactly(db: Db, steps: seq<Step>, e: string)
    requires Sound(db) && GenuineRun(db, steps) && e in db.events && Balanced(db, e)
    ensures AlwaysBalanced(db, steps, e) <==> ExactRun(db, steps, e)
  {
    hide Sound, Balanced, ExactStep, Apply, Genuine, WellFormed;
    if steps != [] {
      var before, s := steps[..|steps| - 1], steps[|steps| - 1];
      ConservedIffRefundsPayExactly(db, before, e);
      TrackedRun(db, before, e);
      WellFormedStep(Run(db, before), s);
      if Balanced(Run(db, before), e) {
        BalancedStepIff(Run(db, before), s, e);
      }
    }
  }

  /**
   * A confirmation that adds the wallet's whole confirmed sum is exact if and
   * only if its copy has the stored amount.
   */
  lemma WholeRefundExactIff(db: Db, e: string, w: string, redis: Redis)
    requires WellFormed(db) && e in db.events && db.events[e].refunded.Exact?
    requires RefundReply(db, e, w, Some(SumOf(db.rows, e, w)), redis) == Synced
    ensures ExactStep(db, ClaimRefund(e, w, Some(SumOf(db.rows, e, w)), redis), e)
            <==> SeenEvent(db, e, redis).refunded == db.events[e].refunded
  {
    hide SumOf, SeenEvent, HasConfirmed;
  }

  /**
   * The log of one wallet's refund does not invalidate the copy, and the
   * confirmation of another wallet's refund adds to what the copy says: the
   * first refund is lost, although both pay exactly.
   */
  lemma StaleCopyLosesRefund(db: Db, e: string, a: string, b: string, tx: string, redis: Redis)
    requires WellFormed(db) && e in db.events && Balanced(db, e) && a != b && redis != Down
    requires e in db.copies && db.copies[e] == db.events[e] && db.events[e].published
    requires HasConfirmed(db.rows, e, a) && HasConfirmed(db.rows, e, b)
    requires Mark(Lower(tx), "refundedAmount_contribution") !in db.events[e].processed
    requires FitsLong(SumOf(db.rows, e, a)) && FitsLong(db.events[e].refunded.n)
    ensures var log := RefundLog(e, a, tx, SumOf(db.rows, e, a), false, redis);
            var after := Apply(Apply(db, log), ClaimRefund(e, b, Some(SumOf(db.rows, e, b)), redis));
            && e in after.events && Settled(after, e)
            && after.events[e].refunded == Exact(db.events[e].refunded.n + SumOf(db.rows, e, b))
            && after.events[e].funding + after.events[e].refunded.n == Recorded(after.rows, e) - SumOf(db.rows, e, a)
  {
    hide Total, SumOf, Contributors, Recorded, Matches, HasConfirmed, Lower, WellFormed, Apply;
    var log := RefundLog(e, a, tx, SumOf(db.rows, e, a), false, redis);
    var mid := Apply(db, log);
    var claim := ClaimRefund(e, b, Some(SumOf(db.rows, e, b)), redis);
    WalletSum(db, e, a);
    WalletSum(db, e, b);
    LogFailsIff(db.events[e], tx, SumOf(db.rows, e, a), false);
    LogBalance(db, log, e);
    WellFormedStep(db, log);
    LogKeepsCopy(db, log, e, b);
    RefundBalance(mid, claim, e);
    RefundSettles(mid, claim, e);
    SettledIsBalance(db, e);
    SettledIsBalance(Apply(mid, claim), e);
  }

  lemma LogKeepsCopy(db: Db, s: Step, e: string, b: string)
    requires WellFormed(db) && e in db.events && s.RefundLog? && s.e == e && s.wallet != b
    requires Mark(Lower(s.txHash), "refundedAmount_contribution") !in db.events[e].processed
    requires HasConfirmed(db.rows, e, b)
    ensures Apply(db, s).copies == db.copies && e in Apply(db, s).events
    ensures SumOf(Apply(db, s).rows, e, b) == SumOf(db.rows, e, b) && HasConfirmed(Apply(db, s).rows, e, b)
  {
    hide Total, SumOf, Contributors, MarkRefunded, RepoShares, HasConfirmed, Lower, WellFormed, Delta, DeleteCopy;
    MarkingIsLocal(db.rows, e, s.wallet, e, b);
    WellFormedStep(db, s);
    WalletSum(db, e, b);
    WalletSum(Apply(db, s), e, b);
  }

  lemma RefundSettles(db: Db, s: Step, e: string)
    requires WellFormed(db) && e in db.events && s.ClaimRefund? && s.e == e
    requires RefundReply(db, e, s.wallet, s.receipt, s.redis) == Synced && SeenEvent(db, e, s.redis).refunded.Exact?
    ensures e in Apply(db, s).events && Settled(Apply(db, s), e)
  {
    hide Matches, Holders, SeenEvent, HasConfirmed, Apply;
    assert Rebuilds(db, s, e);
    RebuildSettles(db, s, e);
  }

  /**
   * The confirmation and the log processor both add the refund: when both see
   * the same ContributionRefunded, in this order, it is counted twice.
   */
  lemma ConfirmThenLogCountsTwice(db: Db, e: string, w: string, tx: string, unmet: bool, redis: Redis)
    requires WellFormed(db) && e in db.events && Balanced(db, e)
    requires RefundReply(db, e, w, Some(SumOf(db.rows, e, w)), redis) == Synced
    requires SeenEvent(db, e, redis).refunded == db.events[e].refunded
    requires Mark(Lower(tx), "refundedAmount_contribution") !in db.events[e].processed
    requires FitsLong(SumOf(db.rows, e, w)) && FitsLong(db.events[e].refunded.n)
    requires FitsLong(db.events[e].refunded.n + SumOf(db.rows, e, w))
             && FitsLong(db.events[e].refunded.n + 2 * SumOf(db.rows, e, w))
    ensures var amount := SumOf(db.rows, e, w);
            var after := Apply(Apply(db, ClaimRefund(e, w, Some(amount), redis)),
                               RefundLog(e, w, tx, amount, unmet, redis));
            && e in after.events && Settled(after, e)
            && after.events[e].refunded == Exact(db.events[e].refunded.n + 2 * amount)
            && after.events[e].funding + after.events[e].refunded.n == Recorded(after.rows, e) + amount
  {
    hide Total, SumOf, Contributors, Recorded, Matches, HasConfirmed, Lower, WellFormed, Apply, SeenEvent;
    var amount := SumOf(db.rows, e, w);
    var claim, log := ClaimRefund(e, w, Some(amount), redis), RefundLog(e, w, tx, amount, unmet, redis);
    var mid := Apply(db, claim);
    RefundBalance(db, claim, e);
    RefundKeepsMarks(db, claim, e);
    WellFormedStep(db, claim);
    LogFailsIff(mid.events[e], tx, amount, unmet);
    LogApplies(mid.events[e], tx, amount, unmet);
    LogBalance(mid, log, e);
    assert Rebuilds(mid, log, e);
    SettledByLog(mid, log, e);
    SettledIsBalance(db, e);
    SettledIsBalance(Apply(mid, log), e);
  }

  lemma RefundKeepsMarks(db: Db, s: Step, e: string)
    requires e in db.events && s.ClaimRefund? && s.e == e
    ensures e in Apply(db, s).events && Apply(db, s).events[e].processed == db.events[e].processed
    ensures RefundReply(db, e, s.wallet, s.receipt, s.redis) == Synced ==> SumOf(Apply(db, s).rows, e, s.wallet) == 0
  {
    hide Total, SumOf, MarkRefunded, RebuiltShares, HasConfirmed, ReadCopies, DeleteCopy, CopyIn, Seen;
    MarkingTakesOut(db.rows, e, s.wallet);
  }

  lemma LogApplies(ev: EventRow, tx: string, amount: int, unmet: bool)
    requires Mark(Lower(tx), "refundedAmount_contribution") !in ev.processed
    ensures Decide(RefundDoc(ev), ContributionUpdate(tx, amount, unmet)) in {Applied, ConversionError}
  {
    assert REFUNDED in ContributionUpdate(tx, amount, unmet).inc;
  }

  lemma SettledByLog(db: Db, s: Step, e: string)
    requires WellFormed(db) && e in db.events && s.RefundLog? && Rebuilds(db, s, e)
    ensures e in Apply(db, s).events && Settled(Apply(db, s), e)
  {
    hide Matches, Apply;
    RebuildSettles(db, s, e);
  }

  /**
   * The log of a contribution, replayed after its refund, brings the row
   * back: the amount counts as funding and as refunded.
   */
  lemma ReplayedLogRevivesRow(db: Db, s: Step, e: string)
    requires WellFormed(db) && Genuine(db, s) && e in db.events && Balanced(db, e) && s.InvestLog? && s.e == e
    requires var i := RowWithHash(db.rows, Lower(s.txHash));
             i >= 0 && db.rows[i] == Donated(e, s.wallet, s.amount, Lower(s.txHash)).(status := Refunded)
    ensures var after := Apply(db, s);
            && e in after.events && Settled(after, e) && after.events[e].refunded.Exact?
            && after.events[e].funding + after.events[e].refunded.n == Recorded(after.rows, e) + s.amount
  {
    hide Total, SumOf, Contributors, Recorded, Matches, Lower, RowWithHash, WellFormed, Genuine, Apply;
    InvestLogBalance(db, s, e);
    assert Rebuilds(db, s, e);
    SettledByInvestLog(db, s, e);
    SettledIsBalance(db, e);
    SettledIsBalance(Apply(db, s), e);
  }

  lemma SettledByInvestLog(db: Db, s: Step, e: string)
    requires WellFormed(db) && Genuine(db, s) && e in db.events && s.InvestLog? && Rebuilds(db, s, e)
    ensures e in Apply(db, s).events && Settled(Apply(db, s), e)
  {
    hide Matches, Apply, Genuine;
    RebuildSettles(db, s, e);
  }
}
