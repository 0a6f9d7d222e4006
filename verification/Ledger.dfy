/**
 * The contribution, share and reward ledger: confirmed contributions are rows
 * keyed by transaction hash, and every share and the event's funding are
 * rebuilt from the confirmed rows. One call of a service is one atomic step,
 * but it reads the event through a cached copy, which the log processor does
 * not always invalidate.
 */
module Ledger {
  import opened Copies
  import opened EventTotals
  import opened Text
  import opened Status
  import opened Shares
  import opened Options

  datatype Share = Share(contribution: int, percentage: real, claimed: int, rewardTxs: set<string>)

  /** The refunded amount is a counter that the log processor adds to in 64 bits. */
  datatype EventRow = EventRow(
    goal: int, minInvestment: int, published: bool,
    funding: int, refunded: Counter, status: AppStatus, processed: seq<Mark>)

  /** A reader of an event between its load and its store. */
  datatype Load = Load(e: string, row: EventRow)

  datatype Db = Db(
    rows: seq<Row>, shares: map<string, map<string, Share>>, events: map<string, EventRow>,
    copies: map<string, EventRow>, loading: map<nat, Load>)

  datatype Reply = Synced | AlreadySynced | NotFound | BadRequest | DuplicateHash

  // ---- cached events ----

  function CopyIn(copies: map<string, EventRow>, e: string): Option<EventRow>
  {
    if e in copies then Some(copies[e]) else None
  }

  function SetCopy(copies: map<string, EventRow>, e: string, copy: Option<EventRow>): map<string, EventRow>
  {
    if copy.Some? then copies[e := copy.value] else copies - {e}
  }

  function ReadCopies(copies: map<string, EventRow>, e: string, stored: EventRow, redis: Redis): map<string, EventRow>
  {
    SetCopy(copies, e, AfterRead(CopyIn(copies, e), stored, redis))
  }

  function DeleteCopy(copies: map<string, EventRow>, e: string, redis: Redis): map<string, EventRow>
  {
    SetCopy(copies, e, AfterDelete(CopyIn(copies, e), redis))
  }

  /** Reading again reads the same and leaves the same copy. */
  lemma ReadAgain(copies: map<string, EventRow>, e: string, stored: EventRow, redis: Redis)
    ensures var read := ReadCopies(copies, e, stored, redis);
            && Seen(CopyIn(read, e), stored, redis) == Seen(CopyIn(copies, e), stored, redis)
            && ReadCopies(read, e, stored, redis) == read
  {
  }

  /** What findById returns. */
  function SeenEvent(db: Db, e: string, redis: Redis): EventRow
    requires e in db.events
  {
    Seen(CopyIn(db.copies, e), db.events[e], redis)
  }

  /** A call that reads the event and gives up. */
  function Read(db: Db, e: string, redis: Redis): Db
  {
    if e !in db.events then db else db.(copies := ReadCopies(db.copies, e, db.events[e], redis))
  }

  /** The copies after a call that found the event, updated it and invalidated it. */
  function CopiesAfter(db: Db, e: string, redis: Redis): map<string, EventRow>
    requires e in db.events
  {
    DeleteCopy(ReadCopies(db.copies, e, db.events[e], redis), e, redis)
  }

  function BeginLoad(db: Db, reader: nat, e: string): Db
  {
    if reader in db.loading || e in db.copies || e !in db.events then db
    else db.(loading := db.loading[reader := Load(e, db.events[e])])
  }

  function FinishLoad(db: Db, reader: nat): Db
  {
    if reader !in db.loading then db
    else
      var l := db.loading[reader];
      db.(copies := db.copies[l.e := l.row], loading := db.loading - {reader})
  }

  /** The copy expires, or another call invalidates it. */
  function ExpireCopy(db: Db, e: string): Db
  {
    db.(copies := db.copies - {e})
  }

  // ---- specification of the steps ----

  function SharesFor(db: Db, e: string): map<string, Share>
  {
    if e in db.shares then db.shares[e] else map[]
  }

  function WithContribution(held: map<string, Share>, h: string, contribution: int, percentage: real): Share
  {
    if h in held then held[h].(contribution := contribution, percentage := percentage)
    else Share(contribution, percentage, 0, {})
  }

  /** Every existing and every contributing holder, with the confirmed sum and its percentage. */
  function RebuiltShares(rows: seq<Row>, held: map<string, Share>, e: string): map<string, Share>
  {
    var total := Total(rows, e);
    map h | h in held.Keys + Contributors(rows, e) ::
      var sum := if h in Contributors(rows, e) then SumOf(rows, e, h) else 0;
      WithContribution(held, h, sum, CalculatePercentage(sum, total))
  }

  /** The share repository's rebuild: only kept rows, and unrounded percentages. */
  function RepoShares(rows: seq<Row>, held: map<string, Share>, e: string): map<string, Share>
  {
    var kept := Kept(rows, e);
    map h | h in held.Keys + Contributors(kept, e) ::
      var sum := if h in Contributors(kept, e) then SumOf(kept, e, h) else 0;
      WithContribution(held, h, sum, ExactPercentage(sum, Total(kept, e)))
  }

  ghost predicate SameClaims(a: map<string, Share>, b: map<string, Share>, h: string)
  {
    && (h in a && h in b ==> a[h].claimed == b[h].claimed && a[h].rewardTxs == b[h].rewardTxs)
    && (h !in a && h in b ==> b[h].claimed == 0 && b[h].rewardTxs == {})
  }

  /** A rebuild does not look at the amounts it overwrites. */
  lemma RebuildForgetsAmounts(rows: seq<Row>, a: map<string, Share>, b: map<string, Share>, e: string)
    requires a.Keys <= b.Keys <= a.Keys + Contributors(rows, e)
    requires forall h :: h in b ==> SameClaims(a, b, h)
    ensures RebuiltShares(rows, a, e) == RebuiltShares(rows, b, e)
  {
    assert a.Keys + Contributors(rows, e) == b.Keys + Contributors(rows, e);
  }

  lemma LastContributes(rows: seq<Row>, e: string)
    requires rows != [] && Counts(rows[|rows| - 1], e) && rows[|rows| - 1].contributor != ""
    ensures rows[|rows| - 1].contributor in Contributors(rows, e)
  {
  }

  /** The status that a rebuild says to store: that of the event it read, unless the goal is reached. */
  function StatusAfterFunding(seen: EventRow, funding: int): AppStatus
  {
    if funding >= seen.goal && seen.status == Funding then Funded else seen.status
  }

  /** The rows with all shares of the event rebuilt from them. */
  function Rebuild(db: Db, rows: seq<Row>, e: string): Db
  {
    db.(rows := rows, shares := db.shares[e := RebuiltShares(rows, SharesFor(db, e), e)])
  }

  /** Rebuild from the rows, store the new funding and the status it implies, and invalidate the copy. */
  function Settle(db: Db, rows: seq<Row>, e: string, redis: Redis): Db
    requires e in db.events
  {
    var total := Total(rows, e);
    var status := StatusAfterFunding(SeenEvent(db, e, redis), total);
    Rebuild(db, rows, e).(
      events := db.events[e := db.events[e].(funding := total, status := status)],
      copies := CopiesAfter(db, e, redis))
  }

  /** Settling does not depend on amounts it overwrites, nor on whether the event was read before. */
  lemma SettleForgets(db: Db, d: Db, rows: seq<Row>, e: string, redis: Redis)
    requires e in db.events && d.events == db.events && d.loading == db.loading && d.copies == Read(db, e, redis).copies
    requires d.shares == db.shares || d.shares == db.shares[e := SharesFor(d, e)]
    requires RebuiltShares(rows, SharesFor(d, e), e) == RebuiltShares(rows, SharesFor(db, e), e)
    ensures Settle(d, rows, e, redis) == Settle(db, rows, e, redis)
  {
    hide RebuiltShares, Total, StatusAfterFunding, ReadCopies, DeleteCopy, CopyIn, Seen;
    ReadAgain(db.copies, e, db.events[e], redis);
  }

  function RowWithHash(rows: seq<Row>, txHash: string): (r: int)
    ensures -1 <= r < |rows|
    ensures r >= 0 ==> rows[r].txHash == txHash
    ensures r == -1 ==> forall x :: x in rows ==> x.txHash != txHash
  {
    if rows == [] then -1
    else if rows[|rows| - 1].txHash == txHash then |rows| - 1
    else RowWithHash(rows[..|rows| - 1], txHash)
  }

  /** The amount is what the matching ContributionMade of a mined, successful receipt says. */
  function InvestmentReply(db: Db, e: string, wallet: string, txHash: string, amount: Option<int>, redis: Redis): Reply
  {
    if e !in db.events then NotFound
    else
      var seen := SeenEvent(db, e, redis);
      if !seen.published || wallet == "" || amount.None? || amount.value <= 0 then BadRequest
      else if seen.minInvestment > 0 && amount.value < seen.minInvestment then BadRequest
      else
        var i := RowWithHash(db.rows, Lower(txHash));
        if i < 0 then Synced
        else if db.rows[i].kind != Donation then DuplicateHash
        else if db.rows[i].eventId == e && db.rows[i].contributor == wallet then AlreadySynced
        else BadRequest
  }

  function Donated(e: string, wallet: string, amount: int, txHash: string): Row
  {
    Row(e, wallet, Donation, amount, txHash, Confirmed)
  }

  function ConfirmInvestment(db: Db, e: string, wallet: string, txHash: string, amount: Option<int>, redis: Redis): Db
  {
    var reply := InvestmentReply(db, e, wallet, txHash, amount, redis);
    if reply == Synced then Settle(db, db.rows + [Donated(e, wallet, amount.value, Lower(txHash))], e, redis)
    else if reply == AlreadySynced then Settle(db, db.rows, e, redis)
    else Read(db, e, redis)
  }

  function OffChainReply(db: Db, e: string, wallet: string, amount: int, redis: Redis): Reply
  {
    if e !in db.events then NotFound
    else
      var seen := SeenEvent(db, e, redis);
      if wallet == "" || seen.status != Funding || amount <= 0 then BadRequest
      else if seen.minInvestment > 0 && amount < seen.minInvestment then BadRequest
      else Synced
  }

  /** The hash is generated by the service; a generated hash is new. */
  function InvestOffChain(db: Db, e: string, wallet: string, amount: int, newHash: string, redis: Redis): Db
  {
    if OffChainReply(db, e, wallet, amount, redis) != Synced then Read(db, e, redis)
    else Settle(db, db.rows + [Donated(e, wallet, amount, newHash)], e, redis)
  }

  predicate HasConfirmed(rows: seq<Row>, e: string, wallet: string)
  {
    exists r :: r in rows && Counts(r, e) && r.contributor == wallet
  }

  function Refund(r: Row, e: string, wallet: string): Row
  {
    if Counts(r, e) && r.contributor == wallet then r.(status := Refunded) else r
  }

  function MarkRefunded(rows: seq<Row>, e: string, wallet: string): (r: seq<Row>)
    ensures |r| == |rows|
  {
    if rows == [] then []
    else MarkRefunded(rows[..|rows| - 1], e, wallet) + [Refund(rows[|rows| - 1], e, wallet)]
  }

  function RefundReply(db: Db, e: string, wallet: string, amount: Option<int>, redis: Redis): Reply
  {
    if e !in db.events then NotFound
    else if !SeenEvent(db, e, redis).published || amount.None? || amount.value <= 0 then BadRequest
    else if HasConfirmed(db.rows, e, wallet) then Synced
    else AlreadySynced
  }

  function TerminalStatus(failed: bool): AppStatus
  {
    if failed then Failed else Cancelled
  }

  /**
   * The amount is what ContributionRefunded says; the guard looks for a
   * confirmed row, not at the hash. The amount is added to what the copy says
   * was refunded; if that is no integer, the call fails after the rebuild and
   * before the event is stored. The stored event is read again for the reply.
   */
  function ConfirmRefund(db: Db, e: string, wallet: string, amount: Option<int>, redis: Redis): Db
  {
    if RefundReply(db, e, wallet, amount, redis) != Synced then Read(db, e, redis)
    else
      var rows, seen := MarkRefunded(db.rows, e, wallet), SeenEvent(db, e, redis);
      var rebuilt := Rebuild(Read(db, e, redis), rows, e);
      if seen.refunded.Inexact? then rebuilt
      else
        var row := db.events[e].(
          funding := Total(rows, e),
          status := TerminalStatus(seen.status == Failed),
          refunded := Exact(seen.refunded.n + amount.value));
        rebuilt.(events := db.events[e := row], copies := ReadCopies(CopiesAfter(db, e, redis), e, row, redis))
  }

  /** Nothing is written for an event without holders. */
  function StoreShares(shares: map<string, map<string, Share>>, e: string, written: map<string, Share>)
    : map<string, map<string, Share>>
  {
    if written == map[] then shares else shares[e := written]
  }

  const REFUNDED := "refundedAmount"

  /** The part of an event that the idempotent update of the refunded amount works on. */
  function RefundDoc(ev: EventRow): EventDoc
  {
    EventDoc(map[REFUNDED := ev.refunded], map[], ev.processed)
  }

  function RefundUpdate(txHash: string, field: string, amount: int, status: string): Update
  {
    Update(txHash, field, map[REFUNDED := amount], map["status" := status])
  }

  /** The event after the idempotent update. */
  function Delta(ev: EventRow, u: Update): EventRow
  {
    var doc := After(RefundDoc(ev), u);
    ev.(refunded := CounterOf(doc, REFUNDED), processed := doc.processed)
  }

  lemma DeltaOnce(ev: EventRow, u: Update)
    requires Decide(RefundDoc(ev), u) != Applied
    ensures Delta(ev, u) == ev
  {
  }

  lemma SameShares(db: Db, d: Db, e: string)
    requires db.shares == d.shares
    ensures SharesFor(db, e) == SharesFor(d, e)
  {
  }

  function ContributionUpdate(txHash: string, amount: int, unmet: bool): Update
  {
    RefundUpdate(txHash, "refundedAmount_contribution", amount, if unmet then "failed" else "cancelled")
  }

  lemma RefundIsSomething(ev: EventRow, txHash: string, amount: int, unmet: bool)
    ensures Decide(RefundDoc(ev), ContributionUpdate(txHash, amount, unmet)) != NothingToDo
  {
    assert REFUNDED in ContributionUpdate(txHash, amount, unmet).inc;
  }

  /**
   * The log processor handles the same ContributionRefunded. It flips the rows,
   * then adds the amount once per hash; if that fails to convert, it goes no
   * further. Otherwise it stores the confirmed total and lets the share
   * repository rebuild. Only a repeated log invalidates the copy.
   */
  function ProcessRefundLog(db: Db, e: string, wallet: string, txHash: string, amount: int, unmet: bool,
          redis: Redis): Db
  {
    if e !in db.events then db
    else
      var ev, rows, u := db.events[e], MarkRefunded(db.rows, e, wallet), ContributionUpdate(txHash, amount, unmet);
      var outcome := Decide(RefundDoc(ev), u);
      if outcome == ConversionError then db.(rows := rows)
      else
        db.(rows := rows,
            shares := StoreShares(db.shares, e, RepoShares(rows, SharesFor(db, e), e)),
            events := db.events[e := Delta(ev, u).(funding := Total(rows, e), status := TerminalStatus(unmet))],
            copies := if outcome == AlreadyApplied then DeleteCopy(db.copies, e, redis) else db.copies)
  }

  /** One donation row per hash: an existing one is overwritten, and confirmed again. */
  function Upserted(rows: seq<Row>, r: Row): seq<Row>
  {
    var i := RowWithHash(rows, r.txHash);
    if i < 0 then rows + [r] else rows[i := r]
  }

  /** A hash that another kind of row has taken makes the log fail. */
  predicate HashFree(rows: seq<Row>, txHash: string)
  {
    var i := RowWithHash(rows, txHash);
    i < 0 || rows[i].kind == Donation
  }

  /** The log of a contribution; it neither looks at the status of the row nor touches the copy. */
  function ProcessInvestmentLog(db: Db, e: string, wallet: string, txHash: string, amount: int): Db
  {
    if e !in db.events || !HashFree(db.rows, Lower(txHash)) then db
    else
      var rows := Upserted(db.rows, Donated(e, wallet, amount, Lower(txHash)));
      db.(rows := rows,
          shares := StoreShares(db.shares, e, RepoShares(rows, SharesFor(db, e), e)),
          events := db.events[e := db.events[e].(funding := Total(rows, e))])
  }

  /** A ticket refund is added to the same counter, under a mark of its own. */
  function ProcessTicketRefundLog(db: Db, e: string, txHash: string, amount: int): Db
  {
    if e !in db.events then db
    else db.(events := db.events[e := Delta(db.events[e], RefundUpdate(txHash, REFUNDED, amount, "refunding"))])
  }

  lemma WrittenByRebuild(rows: seq<Row>, held: map<string, Share>, holders: map<string, int>,
          written: map<string, Share>, e: string)
    requires holders == Groups(rows, e) && written.Keys == held.Keys + holders.Keys
    requires forall h :: h in written ==>
      var sum := if h in holders then holders[h] else 0;
      written[h] == WithContribution(held, h, sum, CalculatePercentage(sum, Total(rows, e)))
    ensures written == RebuiltShares(rows, held, e)
  {
    hide SumOf, Total, WithContribution, CalculatePercentage, Contributors;
    GroupsAre(rows, e);
  }

  lemma WrittenByRepo(rows: seq<Row>, held: map<string, Share>, holders: map<string, int>,
          written: map<string, Share>, e: string)
    requires holders == Groups(Kept(rows, e), e) && written.Keys == held.Keys + holders.Keys
    requires forall h :: h in written ==>
      var sum := if h in holders then holders[h] else 0;
      written[h] == WithContribution(held, h, sum, ExactPercentage(sum, Total(Kept(rows, e), e)))
    ensures written == RepoShares(rows, held, e)
  {
    hide SumOf, Kept, Total, WithContribution, ExactPercentage, Contributors;
  }

  lemma NothingKept(e: string)
    ensures Groups(Kept([], e), e) == map[] && Total(Kept([], e), e) == 0
  {
  }

  function IncrementClaimed(held: map<string, Share>, h: string, amount: int, txHash: string): map<string, Share>
  {
    var s := if h in held then held[h] else Share(0, 0.0, 0, {});
    if Lower(txHash) in s.rewardTxs then held
    else held[h := s.(claimed := s.claimed + amount, rewardTxs := s.rewardTxs + {Lower(txHash)})]
  }

  function RewardReply(db: Db, e: string, amount: Option<int>, redis: Redis): Reply
  {
    if e !in db.events then NotFound
    else if !SeenEvent(db, e, redis).published || amount.None? || amount.value <= 0 then BadRequest
    else Synced
  }

  function ConfirmReward(db: Db, e: string, wallet: string, txHash: string, amount: Option<int>, redis: Redis): Db
  {
    if RewardReply(db, e, amount, redis) != Synced then Read(db, e, redis)
    else
      Read(db, e, redis).(shares := db.shares[e := IncrementClaimed(SharesFor(db, e), wallet, amount.value, txHash)])
  }

  // ---- the store ----

  class LedgerStore {
    var rows: seq<Row>
    var shares: map<string, map<string, Share>>
    var events: map<string, EventRow>
    var copies: map<string, EventRow>
    var loading: map<nat, Load>

    function State(): Db
      reads this
    {
      Db(rows, shares, events, copies, loading)
    }

    /** findById: the copy if Redis has one, else the stored event, which is then cached if Redis is up. */
    method FindEvent(e: string, redis: Redis) returns (seen: EventRow)
      requires e in events
      modifies this`copies
      ensures seen == SeenEvent(old(State()), e, redis)
      ensures copies == ReadCopies(old(copies), e, events[e], redis)
    {
      if redis == Down {
        assert SetCopy(copies, e, CopyIn(copies, e)) == copies;
        return events[e];
      }
      if e in copies {
        assert copies == copies[e := copies[e]];
        return copies[e];
      }
      copies := copies[e := events[e]];
      return events[e];
    }

    /** Stores an event and invalidates its copy. */
    method UpdateEvent(e: string, row: EventRow, redis: Redis)
      modifies this`events, this`copies
      ensures events == old(events)[e := row] && copies == DeleteCopy(old(copies), e, redis)
    {
      events := events[e := row];
      if redis == Works {
        copies := copies - {e};
      } else {
        assert SetCopy(copies, e, CopyIn(copies, e)) == copies;
      }
    }

    /** One upsert per existing or contributing holder; a percentage rule says what to store. */
    method WriteShares(existing: map<string, Share>, holders: map<string, int>, total: int, rule: (int, int) -> real)
      returns (written: map<string, Share>)
      ensures written.Keys == existing.Keys + holders.Keys
      ensures forall h :: h in written ==>
        var sum := if h in holders then holders[h] else 0;
        written[h] == WithContribution(existing, h, sum, rule(sum, total))
    {
      written := map[];
      var todo := existing.Keys + holders.Keys;
      while todo != {}
        invariant todo <= existing.Keys + holders.Keys && written.Keys == existing.Keys + holders.Keys - todo
        invariant forall h :: h in written ==>
          var sum := if h in holders then holders[h] else 0;
          written[h] == WithContribution(existing, h, sum, rule(sum, total))
        decreases todo
      {
        var h :| h in todo;
        var sum := if h in holders then holders[h] else 0;
        written := written[h := WithContribution(existing, h, sum, rule(sum, total))];
        todo := todo - {h};
      }
    }

    method SumFunding(e: string) returns (total: int)
      ensures total == Total(rows, e)
    {
      total := 0;
      for i := 0 to |rows|
        invariant total == Total(rows[..i], e)
      {
        assert rows[..i + 1][..i] == rows[..i];
        if Counts(rows[i], e) {
          total := total + rows[i].amount;
        }
      }
      assert rows[..|rows|] == rows;
    }

    method GroupByHolder(e: string) returns (holders: map<string, int>)
      ensures holders == Groups(rows, e)
    {
      hide Groups, SumOf, Contributors;
      holders := map[];
      GroupsAre([], e);
      for i := 0 to |rows|
        invariant holders == Groups(rows[..i], e)
      {
        assert rows[..i + 1][..i] == rows[..i];
        GroupsAppend(rows[..i + 1], e);
        GroupsAre(rows[..i], e);
        var r := rows[i];
        if Counts(r, e) && r.contributor != "" {
          var held := if r.contributor in holders then holders[r.contributor] else 0;
          holders := holders[r.contributor := held + r.amount];
        }
      }
      assert rows[..|rows|] == rows;
    }

    /** Upserts one share per existing or contributing holder, and says what to store in the event. */
    method RebuildSharePercentagesAndFunding(e: string, redis: Redis) returns (funding: int, status: AppStatus)
      requires e in events
      modifies this`shares, this`copies
      ensures shares == old(shares)[e := RebuiltShares(rows, SharesFor(old(State()), e), e)]
      ensures funding == Total(rows, e) && status == StatusAfterFunding(SeenEvent(old(State()), e, redis), funding)
      ensures copies == ReadCopies(old(copies), e, events[e], redis)
    {
      hide RebuiltShares, Total, StatusAfterFunding, CopyIn, ReadCopies;
      var seen := FindEvent(e, redis);
      funding := SumFunding(e);
      var holders := GroupByHolder(e);
      var existing := SharesFor(State(), e);
      var written := WriteShares(existing, holders, funding, CalculatePercentage);
      WrittenByRebuild(rows, existing, holders, written, e);
      shares := shares[e := written];
      status := StatusAfterFunding(seen, funding);
    }

    /** Rebuild, store, invalidate. */
    method SettleEvent(e: string, redis: Redis)
      requires e in events
      modifies this`shares, this`events, this`copies
      ensures State() == Settle(old(State()), rows, e, redis)
    {
      hide RebuiltShares, Total, StatusAfterFunding, Seen, CopyIn, ReadCopies, DeleteCopy;
      var funding, status := RebuildSharePercentagesAndFunding(e, redis);
      UpdateEvent(e, events[e].(funding := funding, status := status), redis);
    }

    method ConfirmInvestmentTransaction(e: string, wallet: string, txHash: string, amount: Option<int>, redis: Redis)
      returns (reply: Reply)
      modifies this
      ensures reply == InvestmentReply(old(State()), e, wallet, txHash, amount, redis)
      ensures State() == ConfirmInvestment(old(State()), e, wallet, txHash, amount, redis)
    {
      hide RebuiltShares, Total, RowWithHash, Lower, Seen, CopyIn, ReadCopies, Settle;
      if e !in events {
        return NotFound;
      }
      var seen := FindEvent(e, redis);
      if !seen.published || wallet == "" || amount.None? || amount.value <= 0 {
        return BadRequest;
      }
      if seen.minInvestment > 0 && amount.value < seen.minInvestment {
        return BadRequest;
      }
      var existing := RowWithHash(rows, Lower(txHash));
      if existing >= 0 {
        if rows[existing].kind != Donation {
          return DuplicateHash;
        }
        if rows[existing].eventId != e || rows[existing].contributor != wallet {
          return BadRequest;
        }
        reply := AlreadySynced;
      } else {
        rows := rows + [Donated(e, wallet, amount.value, Lower(txHash))];
        reply := Synced;
      }
      SettleForgets(old(State()), State(), rows, e, redis);
      SettleEvent(e, redis);
    }

    /** The share is bumped first; the rebuild that follows overwrites it from the rows. */
    method Invest(e: string, wallet: string, amount: int, newHash: string, redis: Redis) returns (reply: Reply)
      modifies this
      ensures reply == OffChainReply(old(State()), e, wallet, amount, redis)
      ensures State() == InvestOffChain(old(State()), e, wallet, amount, newHash, redis)
    {
      hide RebuiltShares, SameClaims, Contributors, Seen, CopyIn, ReadCopies, Settle;
      if e !in events {
        return NotFound;
      }
      var seen := FindEvent(e, redis);
      if wallet == "" || seen.status != Funding || amount <= 0 {
        return BadRequest;
      }
      if seen.minInvestment > 0 && amount < seen.minInvestment {
        return BadRequest;
      }
      BumpShare(e, wallet, amount);
      rows := rows + [Donated(e, wallet, amount, newHash)];
      LastContributes(rows, e);
      RebuildForgetsAmounts(rows, SharesFor(old(State()), e), SharesFor(State(), e), e);
      SettleForgets(old(State()), State(), rows, e, redis);
      SettleEvent(e, redis);
      return Synced;
    }

    method BumpShare(e: string, wallet: string, amount: int)
      modifies this`shares
      ensures shares == old(shares)[e := SharesFor(State(), e)]
      ensures SharesFor(State(), e).Keys == SharesFor(old(State()), e).Keys + {wallet}
      ensures forall h :: h in SharesFor(State(), e) ==>
                SameClaims(SharesFor(old(State()), e), SharesFor(State(), e), h)
    {
      var existing := SharesFor(State(), e);
      if wallet in existing {
        var raised := existing[wallet].(contribution := existing[wallet].contribution + amount);
        shares := shares[e := existing[wallet := raised]];
      } else {
        shares := shares[e := existing[wallet := Share(amount, 0.0, 0, {})]];
      }
    }

    method MarkDonatorContributionsAsRefunded(e: string, wallet: string)
      modifies this`rows
      ensures rows == MarkRefunded(old(rows), e, wallet)
    {
      var marked := [];
      for i := 0 to |rows|
        invariant marked == MarkRefunded(rows[..i], e, wallet)
      {
        assert rows[..i + 1][..i] == rows[..i];
        marked := marked + [Refund(rows[i], e, wallet)];
      }
      assert rows[..|rows|] == rows;
      rows := marked;
    }

    method ConfirmContributionRefundTransaction(e: string, wallet: string, amount: Option<int>, redis: Redis)
      returns (reply: Reply, stored: bool)
      modifies this
      ensures reply == RefundReply(old(State()), e, wallet, amount, redis)
      ensures State() == ConfirmRefund(old(State()), e, wallet, amount, redis)
      ensures stored <==> reply == Synced && SeenEvent(old(State()), e, redis).refunded.Exact?
    {
      hide RebuiltShares, Total, MarkRefunded, HasConfirmed, StatusAfterFunding, Seen, CopyIn, ReadCopies, DeleteCopy;
      if e !in events {
        return NotFound, false;
      }
      ReadAgain(copies, e, events[e], redis);
      var seen := FindEvent(e, redis);
      if !seen.published || amount.None? || amount.value <= 0 {
        return BadRequest, false;
      }
      if !HasConfirmed(rows, e, wallet) {
        return AlreadySynced, false;
      }
      MarkDonatorContributionsAsRefunded(e, wallet);
      var funding, _ := RebuildSharePercentagesAndFunding(e, redis);
      if seen.refunded.Inexact? {
        return Synced, false;
      }
      UpdateEvent(e, events[e].(
        funding := funding,
        status := TerminalStatus(seen.status == Failed),
        refunded := Exact(seen.refunded.n + amount.value)), redis);
      var _ := FindEvent(e, redis);
      return Synced, true;
    }

    /** The idempotent update of the refunded amount, with its fallback for a repeated log. */
    method ApplyRefund(e: string, u: Update, status: AppStatus, redis: Redis) returns (outcome: Outcome)
      requires e in events
      modifies this`events, this`copies
      ensures outcome == Decide(RefundDoc(old(events)[e]), u)
      ensures outcome == ConversionError ==> events == old(events)
      ensures outcome != ConversionError ==> events == old(events)[e := Delta(old(events)[e], u).(status := status)]
      ensures copies
              == if outcome == Applied || outcome == ConversionError then old(copies)
                 else DeleteCopy(old(copies), e, redis)
    {
      hide Decide, Delta, RefundDoc, DeleteCopy;
      var ev := events[e];
      outcome := Decide(RefundDoc(ev), u);
      if outcome == ConversionError {
        return;
      }
      if outcome == Applied {
        events := events[e := Delta(ev, u).(status := status)];
      } else {
        DeltaOnce(ev, u);
        UpdateEvent(e, ev.(status := status), redis);
      }
    }

    /** The log of a contribution: upsert, then both rebuilds. */
    method HandleContributionMade(e: string, wallet: string, txHash: string, amount: int) returns (done: bool)
      modifies this
      ensures State() == ProcessInvestmentLog(old(State()), e, wallet, txHash, amount)
      ensures done <==> e in old(events) && HashFree(old(rows), Lower(txHash))
    {
      hide RepoShares, Total, StoreShares, SharesFor, Lower, RowWithHash;
      if e !in events {
        return false;
      }
      var row := Donated(e, wallet, amount, Lower(txHash));
      var existing := RowWithHash(rows, row.txHash);
      if existing < 0 {
        rows := rows + [row];
      } else if rows[existing].kind == Donation {
        rows := rows[existing := row];
      } else {
        return false;
      }
      SameShares(State(), old(State()), e);
      RebuildFundAndShares(e);
      return true;
    }

    /** The log of the same refund: rows, then the idempotent counter, then both rebuilds. */
    method HandleContributionRefunded(e: string, wallet: string, txHash: string, amount: int, unmet: bool, redis: Redis)
      returns (done: bool)
      modifies this
      ensures State() == ProcessRefundLog(old(State()), e, wallet, txHash, amount, unmet, redis)
      ensures done <==> e in old(events)
                        && Decide(RefundDoc(old(events)[e]), ContributionUpdate(txHash, amount, unmet))
                           != ConversionError
    {
      hide RepoShares, Total, MarkRefunded, Decide, DeleteCopy, Delta, RefundDoc, ContributionUpdate, StoreShares,
           SharesFor;
      if e !in events {
        return false;
      }
      assert Decide(RefundDoc(events[e]), ContributionUpdate(txHash, amount, unmet)) != NothingToDo by {
        RefundIsSomething(events[e], txHash, amount, unmet);
      }
      MarkDonatorContributionsAsRefunded(e, wallet);
      var outcome := ApplyRefund(e, ContributionUpdate(txHash, amount, unmet), TerminalStatus(unmet), redis);
      SameShares(State(), old(State()), e);
      if outcome == ConversionError {
        return false;
      }
      RebuildFundAndShares(e);
      assert events == old(events)[e := events[e]];
      return true;
    }

    /** rebuildFundState and rebuildShareState. */
    method RebuildFundAndShares(e: string)
      requires e in events
      modifies this`events, this`shares
      ensures events == old(events)[e := old(events)[e].(funding := Total(rows, e))]
      ensures shares == StoreShares(old(shares), e, RepoShares(rows, SharesFor(old(State()), e), e))
    {
      hide Total, RepoShares, StoreShares, SharesFor;
      var funding := SumFunding(e);
      events := events[e := events[e].(funding := funding)];
      SameShares(State(), old(State()), e);
      var _, _ := RebuildShareStateFromContributions(e);
    }

    /** One pass over the kept rows fills the holder map and the running total. */
    method GroupKept(e: string) returns (holders: map<string, int>, total: int)
      ensures holders == Groups(Kept(rows, e), e) && total == Total(Kept(rows, e), e)
    {
      hide Groups, Total, Kept;
      holders, total := map[], 0;
      NothingKept(e);
      for i := 0 to |rows|
        invariant holders == Groups(Kept(rows[..i], e), e) && total == Total(Kept(rows[..i], e), e)
      {
        assert rows[..i + 1][..i] == rows[..i];
        KeptStep(rows[..i + 1], e);
        var r := rows[i];
        if Counts(r, e) && r.contributor != "" && r.amount > 0 {
          var held := if r.contributor in holders then holders[r.contributor] else 0;
          holders := holders[r.contributor := held + r.amount];
          total := total + r.amount;
        }
      }
      assert rows[..|rows|] == rows;
    }

    method RebuildShareStateFromContributions(e: string) returns (total: int, holderCount: nat)
      modifies this`shares
      ensures shares == StoreShares(old(shares), e, RepoShares(rows, SharesFor(old(State()), e), e))
      ensures total == Total(Kept(rows, e), e) && holderCount == |RepoShares(rows, SharesFor(old(State()), e), e).Keys|
    {
      hide Groups, SumOf, Contributors, Kept, Total, WithContribution, ExactPercentage;
      var holders;
      holders, total := GroupKept(e);
      GroupsAre(Kept(rows, e), e);
      var existing := SharesFor(State(), e);
      var all, written := existing.Keys + holders.Keys, map[];
      if all == {} {
        assert RepoShares(rows, existing, e).Keys == {};
        assert RepoShares(rows, existing, e) == map[];
        return total, 0;
      }
      written := WriteShares(existing, holders, total, ExactPercentage);
      WrittenByRepo(rows, existing, holders, written, e);
      shares := shares[e := written];
      holderCount := |all|;
    }

    method ConfirmRewardClaimTransaction(e: string, wallet: string, txHash: string, amount: Option<int>, redis: Redis)
      returns (reply: Reply)
      modifies this`shares, this`copies
      ensures reply == RewardReply(old(State()), e, amount, redis)
      ensures State() == ConfirmReward(old(State()), e, wallet, txHash, amount, redis)
    {
      hide IncrementClaimed, ReadCopies, CopyIn, Seen;
      if e !in events {
        return NotFound;
      }
      var seen := FindEvent(e, redis);
      if !seen.published || amount.None? || amount.value <= 0 {
        return BadRequest;
      }
      shares := shares[e := IncrementClaimed(SharesFor(State(), e), wallet, amount.value, txHash)];
      return Synced;
    }
  }
}
