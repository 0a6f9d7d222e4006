/**
 * The automatic ticket refund of a terminal event: force-cancel the active
 * listings, then claim a refund for every token. Any external call may fail,
 * and a transaction may even land while the wait for it reports a failure.
 */
module RefundSweep {
  import opened Options

  datatype TicketStatus = Minted | Sold | Used | Expired | Refunded

  /**
   * The three contracts as far as the sweep touches them: stored ticket status
   * and price, active listing per token, the event's refund pool, whether
   * refunds are enabled, whether the end date has passed, and the tokens paid.
   */
  datatype Chain = Chain(
    raw: map<nat, TicketStatus>, price: map<nat, nat>, listing: map<nat, nat>, seller: map<nat, string>,
    pool: nat, refundsEnabled: bool, ended: bool, paid: seq<nat>)

  function Raw(c: Chain, t: nat): TicketStatus
  {
    if t in c.raw then c.raw[t] else Minted
  }

  function Price(c: Chain, t: nat): nat
  {
    if t in c.price then c.price[t] else 0
  }

  /** What the ticket contract reports: a sold ticket of an ended event reads as expired. */
  function Reported(c: Chain, t: nat): TicketStatus
  {
    if Raw(c, t) == Sold && c.ended then Expired else Raw(c, t)
  }

  /** A listing can be force-cancelled while its ticket is still transferable. */
  predicate CanCancel(c: Chain, t: nat)
  {
    t in c.listing && (Reported(c, t) == Minted || Reported(c, t) == Sold)
  }

  /** A refund needs a stored sold status, an owner that can be paid, and enough pool. */
  predicate CanRefund(c: Chain, t: nat)
  {
    Raw(c, t) == Sold && t !in c.listing && c.refundsEnabled && 0 < Price(c, t) <= c.pool
  }

  function Unlist(c: Chain, t: nat): Chain
  {
    c.(listing := c.listing - {t})
  }

  function PayRefund(c: Chain, t: nat): Chain
    requires CanRefund(c, t)
  {
    c.(raw := c.raw[t := Refunded], pool := c.pool - Price(c, t), paid := c.paid + [t])
  }

  // ---- the database and the faults ----

  datatype TicketRow = TicketRow(status: TicketStatus, owner: string, isListed: bool)

  /** A row made without a transaction names no listing of the contract. */
  datatype ListingRow = ListingRow(listing: Option<nat>, token: nat, active: bool)

  /** The listing rows are in the order in which they were listed. */
  datatype Db = Db(tickets: map<nat, TicketRow>, listings: seq<ListingRow>)

  datatype Call = Works | Fails | LandsButReportsFailure

  datatype Faults = Faults(
    inspectFails: bool, loadFails: bool, cancel: Call, findFails: bool, ticketWriteFails: bool, listingWriteFails: bool,
    readFails: bool, refund: Call, syncFails: bool)

  const NO_FAULTS := Faults(false, false, Works, false, false, false, false, Works, false)

  // ---- phase one: cancel listings ----

  datatype Cancelling = Cancelling(chain: Chain, db: Db, inspected: nat, cancelled: nat, failed: nat, blocked: set<nat>)

  function Block(s: Cancelling, t: nat): Cancelling
  {
    s.(failed := s.failed + 1, blocked := s.blocked + {t})
  }

  predicate RowOf(row: ListingRow, listing: nat, t: nat)
  {
    row.listing == Some(listing) || (row.token == t && row.active)
  }

  /** The newest row that names the listing or is an active one of the token. */
  function FindRow(rows: seq<ListingRow>, listing: nat, t: nat): (k: Option<nat>)
    ensures k.None? ==> forall row :: row in rows ==> !RowOf(row, listing, t)
    ensures k.Some? ==> k.value < |rows| && RowOf(rows[k.value], listing, t)
    ensures k.Some? ==> forall j :: k.value < j < |rows| ==> !RowOf(rows[j], listing, t)
  {
    if rows == [] then None
    else if RowOf(rows[|rows| - 1], listing, t) then Some(|rows| - 1)
    else FindRow(rows[..|rows| - 1], listing, t)
  }

  function CancelRow(rows: seq<ListingRow>, listing: nat, t: nat): seq<ListingRow>
  {
    match FindRow(rows, listing, t)
    case None => rows
    case Some(k) => rows[k := rows[k].(active := false)]
  }

  function AfterCancelRows(db: Db, t: nat, listing: nat, owner: string, f: Faults): Db
  {
    if f.findFails then db
    else Db(if f.ticketWriteFails || t !in db.tickets then db.tickets
            else db.tickets[t := TicketRow(Sold, owner, false)],
            if f.listingWriteFails then db.listings else CancelRow(db.listings, listing, t))
  }

  function CancelOne(s: Cancelling, t: nat, f: Faults): Cancelling
  {
    if f.inspectFails then Block(s, t)
    else if t !in s.chain.listing then s
    else
      var seen := s.(inspected := s.inspected + 1);
      if f.loadFails then Block(seen, t)
      else
        var listing := s.chain.listing[t];
        var owner := if listing in s.chain.seller then s.chain.seller[listing] else "";
        var landed := f.cancel != Fails && CanCancel(s.chain, t);
        var sent := if landed then seen.(chain := Unlist(s.chain, t)) else seen;
        if !(f.cancel == Works && landed) then Block(sent, t)
        else
          var done := sent.(cancelled := s.cancelled + 1, db := AfterCancelRows(s.db, t, listing, owner, f));
          if f.findFails || f.ticketWriteFails || f.listingWriteFails then Block(done, t) else done
  }

  function CancelAll(s: Cancelling, ids: seq<nat>, faults: nat -> Faults): Cancelling
  {
    if ids == [] then s
    else CancelOne(CancelAll(s, ids[..|ids| - 1], faults), ids[|ids| - 1], faults(ids[|ids| - 1]))
  }

  // ---- phase two: refund ----

  datatype Refunding = Refunding(
    chain: Chain, db: Db, inspected: nat, refunded: nat, alreadyRefunded: nat, skipped: nat, failed: nat)

  function SyncRow(db: Db, t: nat, f: Faults): Db
  {
    if f.syncFails || t !in db.tickets then db
    else db.(tickets := db.tickets[t := db.tickets[t].(status := Refunded)])
  }

  function RefundOne(s: Refunding, t: nat, blocked: set<nat>, f: Faults): Refunding
  {
    var seen := s.(inspected := s.inspected + 1);
    if t in blocked then seen.(skipped := s.skipped + 1)
    else if f.readFails then seen.(failed := s.failed + 1)
    else if Reported(s.chain, t) == Refunded then
      seen.(alreadyRefunded := s.alreadyRefunded + 1, db := SyncRow(s.db, t, f))
    else if Reported(s.chain, t) != Sold then seen.(skipped := s.skipped + 1)
    else
      var landed := f.refund != Fails && CanRefund(s.chain, t);
      var sent := if landed then seen.(chain := PayRefund(s.chain, t)) else seen;
      if f.refund == Works && landed
      then sent.(refunded := s.refunded + 1, db := SyncRow(s.db, t, f))
      else sent.(failed := s.failed + 1)
  }

  function RefundAll(s: Refunding, ids: seq<nat>, blocked: set<nat>, faults: nat -> Faults): Refunding
  {
    if ids == [] then s
    else RefundOne(RefundAll(s, ids[..|ids| - 1], blocked, faults), ids[|ids| - 1], blocked, faults(ids[|ids| - 1]))
  }

  lemma RefundNone(s: Refunding, blocked: set<nat>, faults: nat -> Faults)
    ensures RefundAll(s, [], blocked, faults) == s
  {
  }

  lemma RefundNext(s: Refunding, ids: seq<nat>, i: nat, blocked: set<nat>, faults: nat -> Faults)
    requires i < |ids|
    ensures RefundAll(s, ids[..i + 1], blocked, faults)
            == RefundOne(RefundAll(s, ids[..i], blocked, faults), ids[i], blocked, faults(ids[i]))
  {
    assert ids[..i + 1][..i] == ids[..i];
  }

  function Phase1(c: Chain, db: Db, ids: seq<nat>, faults: nat -> Faults): Cancelling
  {
    CancelAll(Cancelling(c, db, 0, 0, 0, {}), ids, faults)
  }

  function Sweep(c: Chain, db: Db, ids: seq<nat>, faults: nat -> Faults): Refunding
  {
    var p := Phase1(c, db, ids, faults);
    RefundAll(Refunding(p.chain, p.db, 0, 0, 0, 0, 0), ids, p.blocked, faults)
  }

  // ---- the service ----

  class AutoRefund {
    var chain: Chain
    var db: Db
    var inspected: nat
    var refunded: nat
    var alreadyRefunded: nat
    var skipped: nat
    var failed: nat

    method AutoCancelActiveListings(ids: seq<nat>, faults: nat -> Faults)
      returns (seen: nat, cancelled: nat, missed: nat, blocked: set<nat>)
      modifies this`chain, this`db
      ensures Cancelling(chain, db, seen, cancelled, missed, blocked) == Phase1(old(chain), old(db), ids, faults)
    {
      seen, cancelled, missed, blocked := 0, 0, 0, {};
      for i := 0 to |ids|
        invariant Cancelling(chain, db, seen, cancelled, missed, blocked)
                  == CancelAll(Cancelling(old(chain), old(db), 0, 0, 0, {}), ids[..i], faults)
      {
        assert ids[..i + 1][..i] == ids[..i];
        var t, f := ids[i], faults(ids[i]);
        if f.inspectFails {
          missed, blocked := missed + 1, blocked + {t};
          continue;
        }
        if t !in chain.listing {
          continue;
        }
        seen := seen + 1;
        if f.loadFails {
          missed, blocked := missed + 1, blocked + {t};
          continue;
        }
        var listing := chain.listing[t];
        var owner := if listing in chain.seller then chain.seller[listing] else "";
        var landed := f.cancel != Fails && CanCancel(chain, t);
        if landed {
          chain := Unlist(chain, t);
        }
        if f.cancel != Works || !landed {
          missed, blocked := missed + 1, blocked + {t};
          continue;
        }
        cancelled := cancelled + 1;
        db := AfterCancelRows(db, t, listing, owner, f);
        if f.findFails || f.ticketWriteFails || f.listingWriteFails {
          missed, blocked := missed + 1, blocked + {t};
        }
      }
      assert ids[..|ids|] == ids;
    }

    function Result(): Refunding
      reads this
    {
      Refunding(chain, db, inspected, refunded, alreadyRefunded, skipped, failed)
    }

    method AutoRefundCancelledEvent(ids: seq<nat>, faults: nat -> Faults)
      modifies this
      ensures Result() == Sweep(old(chain), old(db), ids, faults)
    {
      hide SyncRow, CanRefund, Phase1, RefundAll;
      var _, _, _, blocked := AutoCancelActiveListings(ids, faults);
      inspected, refunded, alreadyRefunded, skipped, failed := 0, 0, 0, 0, 0;
      ghost var start := Result();
      RefundNone(start, blocked, faults);
      for i := 0 to |ids|
        invariant Result() == RefundAll(start, ids[..i], blocked, faults)
      {
        RefundNext(start, ids, i, blocked, faults);
        var t, f := ids[i], faults(ids[i]);
        inspected := inspected + 1;
        if t in blocked {
          skipped := skipped + 1;
          continue;
        }
        if f.readFails {
          failed := failed + 1;
          continue;
        }
        if Reported(chain, t) == Refunded {
          alreadyRefunded := alreadyRefunded + 1;
          db := SyncRow(db, t, f);
          continue;
        }
        if Reported(chain, t) != Sold {
          skipped := skipped + 1;
          continue;
        }
        var landed := f.refund != Fails && CanRefund(chain, t);
        if landed {
          chain := PayRefund(chain, t);
        }
        if f.refund != Works || !landed {
          failed := failed + 1;
          continue;
        }
        refunded := refunded + 1;
        db := SyncRow(db, t, f);
      }
      assert ids[..|ids|] == ids;
    }
  }
}
