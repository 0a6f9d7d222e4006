/** Laws of the marketplace: the rows are the projection of the contract, as far as receipts arrive in order. */
module MarketplaceLaws {
  import opened Options
  import opened Marketplace

  // ---- the contract alone ----

  /** Listings are numbered up to the counter, by others than the marketplace, and have a buyer exactly if sold. */
  ghost predicate WellListed(c: Chain)
  {
    forall l :: l in c.listings ==>
      && l <= c.counter && c.listings[l].token in c.owner && c.listings[l].seller != MARKET
      && (c.listings[l].soldTo.Some? <==> c.listings[l].status == Sold)
  }

  ghost predicate Indexed(c: Chain)
  {
    && (forall l :: ActiveListing(c, l) ==> c.listings[l].token in c.active && c.active[c.listings[l].token] == l)
    && (forall t :: t in c.active ==> ActiveListing(c, c.active[t]) && c.listings[c.active[t]].token == t)
  }

  ghost predicate Held(c: Chain)
  {
    forall t :: t in c.owner ==> (c.owner[t] == MARKET <==> t in c.active)
  }

  /** The active index names exactly the active listings, and the marketplace holds exactly the listed tickets. */
  ghost predicate Consistent(c: Chain)
  {
    WellListed(c) && Indexed(c) && Held(c)
  }

  lemma OpenKeepsIndexed(c: Chain, token: nat, listing: Listing)
    requires WellListed(c) && Indexed(c) && token !in c.active && listing.token == token && listing.status == Active
    ensures Indexed(Open(c, token, listing))
  {
    assert c.counter + 1 !in c.listings;
  }

  lemma OpenKeepsConsistent(c: Chain, token: nat, listing: Listing)
    requires Consistent(c) && token in c.owner && token !in c.active && listing.token == token
    requires listing.status == Active && listing.soldTo.None? && listing.seller != MARKET
    ensures Consistent(Open(c, token, listing))
  {
    OpenKeepsIndexed(c, token, listing);
    hide Indexed;
  }

  lemma CloseKeepsConsistent(c: Chain, l: nat, status: ListingStatus, to: string)
    requires Consistent(c) && ActiveListing(c, l) && status != Active && to != MARKET
    ensures Consistent(Close(c, l, status, to))
  {
  }

  /** How an action that is not a new listing ends one. */
  function Ending(c: Chain, a: Action): (ListingStatus, string)
    requires !a.CreateListing? && !a.TicketChanges? && Accepts(c, a)
  {
    if a.BuyListing? then (Sold, a.sender) else (Cancelled, c.listings[a.listing].seller)
  }

  lemma ActKeepsConsistent(c: Chain, a: Action)
    requires Consistent(c) && Accepts(c, a)
    ensures Consistent(Act(c, a))
  {
    hide Open, Close;
    if a.CreateListing? {
      OpenKeepsConsistent(c, a.token,
        Listing(a.token, a.sender, a.price, ChainMaxPrice(c.originalPrice[a.token]), Active, None));
    } else if !a.TicketChanges? {
      CloseKeepsConsistent(c, a.listing, Ending(c, a).0, Ending(c, a).1);
    }
  }

  lemma {:induction false} AlwaysConsistent(c: Chain, actions: seq<Action>)
    requires Consistent(c)
    ensures Consistent(RunChain(c, actions))
  {
    if actions != [] {
      AlwaysConsistent(c, actions[..|actions| - 1]);
      var before, a := RunChain(c, actions[..|actions| - 1]), actions[|actions| - 1];
      if Accepts(before, a) {
        ActKeepsConsistent(before, a);
      }
    }
  }

  // ---- the projection ----

  ghost predicate EverListed(c: Chain, t: nat)
  {
    exists l :: l in c.listings && c.listings[l].token == t
  }

  /** The rows as they should be: every listing of the contract, and the holder of every ticket. */
  ghost function Project(c: Chain, was: map<nat, TicketRow>): Db
  {
    Db(c.listings, map t | t in was ::
      if t in c.owner && EverListed(c, t)
      then TicketRow(c.owner[t], SoldTicket, t in c.active, was[t].originalPrice) else was[t])
  }

  /** Every ticket has its row with its holder, before anything was listed. */
  ghost predicate Fresh(c: Chain, was: map<nat, TicketRow>)
  {
    && Consistent(c) && c.listings == map[] && c.owner.Keys == was.Keys
    && forall t :: t in was ==> was[t].owner == c.owner[t] && !was[t].isListed
  }

  /** What the caller adds to a log, if anything, is what the log says. */
  predicate Honest(m: Confirmation)
  {
    && WalletMatches(m)
    && (m.log.ListingCreated? ==> m.token.None? || m.token.value == m.log.token)
    && (m.log.ListingSold? ==> m.listingId.None? || m.listingId.value == m.log.listing)
  }

  lemma OnlyActive(c: Chain, t: nat)
    requires Consistent(c)
    ensures FindActive(c.listings, t) == if t in c.active then Some(c.active[t]) else None
  {
    if t in c.active {
      assert IsActiveRow(c.listings, t, c.active[t]);
    }
  }

  lemma ListedAfter(c: Chain, a: Action, t: nat)
    requires Accepts(c, a) && !a.TicketChanges? && Consistent(c)
    ensures EverListed(Act(c, a), t) <==> EverListed(c, t) || t == LogOf(c, a).token
  {
    assert LogOf(c, a).listing in Act(c, a).listings;
    if EverListed(c, t) {
      var l :| l in c.listings && c.listings[l].token == t;
      assert l in Act(c, a).listings && Act(c, a).listings[l].token == t;
    }
  }

  lemma TicketsFollow(c: Chain, a: Action, was: map<nat, TicketRow>)
    requires Accepts(c, a) && !a.TicketChanges? && Consistent(c) && c.owner.Keys == was.Keys
    ensures var c', token := Act(c, a), LogOf(c, a).token;
            && token in was && token in c'.owner
            && Project(c', was).tickets
               == UpdateTicket(Project(c, was).tickets, token, c'.owner[token], token in c'.active)
  {
    hide EverListed, Consistent;
    TokenOf(c, a);
    forall t {
      ListedAfter(c, a, t);
    }
  }

  lemma TokenOf(c: Chain, a: Action)
    requires Accepts(c, a) && !a.TicketChanges? && Consistent(c)
    ensures var c', token := Act(c, a), LogOf(c, a).token;
            && token in c.owner && token in c'.owner
            && forall t :: t != token ==> (t in c.owner <==> t in c'.owner) && (t in c.active <==> t in c'.active)
                                          && (t in c.owner ==> c.owner[t] == c'.owner[t])
  {
  }

  /** Confirming the next log takes the projection of the chain before it to the projection after it. */
  lemma ConfirmFollows(c: Chain, a: Action, was: map<nat, TicketRow>, m: Confirmation)
    requires Consistent(c) && Accepts(c, a) && !a.TicketChanges? && Honest(m) && m.log == LogOf(c, a)
    requires c.owner.Keys == was.Keys
    ensures Confirm(Project(c, was), m) == Project(Act(c, a), was)
  {
    hide EverListed, UpdateTicket;
    TicketsFollow(c, a, was);
    OnlyActive(c, m.log.token);
  }

  /** Confirming the same log again straight away changes nothing. */
  lemma RepeatIsHarmless(c: Chain, a: Action, was: map<nat, TicketRow>, m: Confirmation)
    requires Consistent(c) && Accepts(c, a) && !a.TicketChanges? && Honest(m) && m.log == LogOf(c, a)
    ensures Confirm(Project(Act(c, a), was), m) == Project(Act(c, a), was)
  {
    hide EverListed, UpdateTicket;
    ActKeepsConsistent(c, a);
    OnlyActive(Act(c, a), m.log.token);
  }

  // ---- whole runs ----

  /** Receipts confirmed in chain order, each at least once, with repeats only straight after. */
  predicate InOrder(ms: seq<Confirmation>, logs: seq<Log>)
  {
    if ms == [] then logs == []
    else
      var before := ms[..|ms| - 1];
      && logs != [] && ms[|ms| - 1].log == logs[|logs| - 1]
      && (InOrder(before, logs) || InOrder(before, logs[..|logs| - 1]))
  }

  lemma {:induction false} SameTickets(c: Chain, actions: seq<Action>)
    requires Consistent(c)
    ensures RunChain(c, actions).owner.Keys == c.owner.Keys
  {
    hide Consistent, Act, Accepts;
    if actions != [] {
      SameTickets(c, actions[..|actions| - 1]);
      var before, a := RunChain(c, actions[..|actions| - 1]), actions[|actions| - 1];
      AlwaysConsistent(c, actions[..|actions| - 1]);
      if Accepts(before, a) {
        if a.TicketChanges? {
          TicketsOnly(before, a);
        } else {
          TokenOf(before, a);
        }
      }
    }
  }

  /** A change of a ticket's status moves neither listings nor holders. */
  lemma TicketsOnly(c: Chain, a: Action)
    requires a.TicketChanges?
    ensures Accepts(c, a) && Act(c, a) == c.(sold := Act(c, a).sold, spent := Act(c, a).spent)
  {
  }

  /** Whatever happened on the contract, in-order confirmation makes the rows its projection. */
  lemma {:induction false} RowsAreProjection(c: Chain, was: map<nat, TicketRow>, actions: seq<Action>,
          ms: seq<Confirmation>)
    requires Fresh(c, was) && InOrder(ms, Logs(c, actions)) && forall m :: m in ms ==> Honest(m)
    ensures ConfirmAll(Db(map[], was), ms) == Project(RunChain(c, actions), was)
    decreases |actions| + |ms|
  {
    hide Consistent, Act, Accepts, Confirm, LogOf, Honest;
    if actions == [] {
      assert Project(c, was).tickets == was;
    } else {
      var early, a := actions[..|actions| - 1], actions[|actions| - 1];
      var before := RunChain(c, early);
      if !Accepts(before, a) {
        assert Logs(c, actions) == Logs(c, early);
        RowsAreProjection(c, was, early, ms);
      } else if a.TicketChanges? {
        assert Logs(c, actions) == Logs(c, early);
        RowsAreProjection(c, was, early, ms);
        TicketsOnly(before, a);
        assert forall t :: EverListed(RunChain(c, actions), t) <==> EverListed(before, t);
      } else {
        var prior, m := ms[..|ms| - 1], ms[|ms| - 1];
        AlwaysConsistent(c, early);
        SameTickets(c, early);
        assert Logs(c, actions)[..|Logs(c, actions)| - 1] == Logs(c, early);
        if InOrder(prior, Logs(c, early)) {
          RowsAreProjection(c, was, early, prior);
          ConfirmFollows(before, a, was, m);
        } else {
          RowsAreProjection(c, was, actions, prior);
          RepeatIsHarmless(before, a, was, m);
        }
      }
    }
  }

  /** So a ticket row shows the holder, and is listed exactly when one active listing row exists for it. */
  lemma ListedIffOneActiveRow(c: Chain, was: map<nat, TicketRow>, actions: seq<Action>, ms: seq<Confirmation>, t: nat)
    requires Fresh(c, was) && InOrder(ms, Logs(c, actions)) && (forall m :: m in ms ==> Honest(m)) && t in was
    ensures var db := ConfirmAll(Db(map[], was), ms);
            && t in db.tickets && t in RunChain(c, actions).owner
            && db.tickets[t].owner == RunChain(c, actions).owner[t]
            && (db.tickets[t].isListed <==> exists l: nat :: IsActiveRow(db.listings, t, l))
            && forall l: nat, k: nat :: IsActiveRow(db.listings, t, l) && IsActiveRow(db.listings, t, k) ==> l == k
  {
    RowsAreProjection(c, was, actions, ms);
    AlwaysConsistent(c, actions);
    SameTickets(c, actions);
    var end := RunChain(c, actions);
    UnlistedKeepsOwner(c, actions, t);
    if t in end.active {
      assert IsActiveRow(end.listings, t, end.active[t]);
    }
  }

  lemma {:induction false} UnlistedKeepsOwner(c: Chain, actions: seq<Action>, t: nat)
    requires Consistent(c) && c.listings == map[] && t in c.owner
    ensures t in RunChain(c, actions).owner
    ensures EverListed(RunChain(c, actions), t)
            || (RunChain(c, actions).owner[t] == c.owner[t] && t !in RunChain(c, actions).active)
  {
    hide Act, Accepts, LogOf, EverListed;
    if actions != [] {
      var early, a := actions[..|actions| - 1], actions[|actions| - 1];
      UnlistedKeepsOwner(c, early, t);
      AlwaysConsistent(c, early);
      if Accepts(RunChain(c, early), a) {
        if a.TicketChanges? {
          TicketsOnly(RunChain(c, early), a);
          SameListed(RunChain(c, early), RunChain(c, actions), t);
        } else {
          TokenOf(RunChain(c, early), a);
          ListedAfter(RunChain(c, early), a, t);
        }
      }
    }
  }

  lemma SameListed(c: Chain, d: Chain, t: nat)
    requires c.listings == d.listings
    ensures EverListed(c, t) <==> EverListed(d, t)
  {
  }

  // ---- out of order ----

  /** A log of something that did happen, and of which the contract has kept the outcome or moved on. */
  predicate Happened(c: Chain, log: Log)
  {
    && log.listing in c.listings && c.listings[log.listing].token == log.token
    && match log
       case ListingCreated(l, _, seller, price, maxPrice) =>
         c.listings[l].seller == seller && c.listings[l].price == price && c.listings[l].maxPrice == maxPrice
       case ListingSold(l, _, buyer) => c.listings[l].status == Sold && c.listings[l].soldTo == Some(buyer)
       case ListingCancelled(l, _, seller) => c.listings[l].status == Cancelled && c.listings[l].seller == seller
  }

  /**
   * A receipt that comes again late is harmless exactly so: a creation while its listing is still active, a sale if
   * the caller names the listing or the token has no newer one, a cancellation always.
   */
  lemma LateReplayHarmlessIff(c: Chain, was: map<nat, TicketRow>, m: Confirmation)
    requires Consistent(c) && c.owner.Keys == was.Keys && Happened(c, m.log) && Honest(m)
    ensures Confirm(Project(c, was), m) == Project(c, was)
            <==> match m.log
                 case ListingCreated(l, _, _, _, _) => ActiveListing(c, l)
                 case ListingSold(_, token, _) => m.listingId.Some? || token !in c.active
                 case ListingCancelled(_, _, _) => true
  {
    hide EverListed, UpdateTicket;
    OnlyActive(c, m.log.token);
    var db := Project(c, was);
    if m.log.ListingSold? && m.listingId.None? && m.log.token in c.active {
      assert Confirm(db, m).listings[c.active[m.log.token]].status == Sold;
    } else if m.log.ListingCreated? && !ActiveListing(c, m.log.listing) {
      assert Confirm(db, m).listings[m.log.listing].status == Active;
    }
  }

  /** A sale confirmed under the id of another row leaves the projection: the id must be the sold listing's own. */
  lemma SaleNamingRowIff(c: Chain, a: Action, was: map<nat, TicketRow>, m: Confirmation, named: nat)
    requires Consistent(c) && c.owner.Keys == was.Keys && a.BuyListing? && Accepts(c, a)
    requires m.log == LogOf(c, a) && WalletMatches(m) && m.listingId == Some(named)
    ensures Confirm(Project(c, was), m) == Project(Act(c, a), was) <==> named == a.listing
  {
    hide EverListed, UpdateTicket;
    if named == a.listing {
      ConfirmFollows(c, a, was, m);
    } else {
      assert Confirm(Project(c, was), m).listings[a.listing].status == Active;
    }
  }

  // ---- intents ----

  /** The two price caps are one. */
  lemma PriceCapsAgree(original: nat)
    ensures BackendMaxPrice(original) == ChainMaxPrice(original)
  {
    assert original * 150 == 10 * (original * 15);
  }

  /**
   * A listing transaction the service builds on projected rows is accepted
   * exactly for a positive price and an unspent sold ticket.
   */
  lemma ListingIntentAcceptedIff(c: Chain, was: map<nat, TicketRow>, seller: string, token: nat, price: nat)
    requires Consistent(c) && ListingIntentOk(Project(c, was), c, seller, token, price)
    requires token in was && token in c.originalPrice && was[token].originalPrice == c.originalPrice[token]
    ensures Accepts(c, CreateListing(seller, token, price)) <==> price > 0 && token in c.sold && token !in c.spent
  {
    PriceCapsAgree(c.originalPrice[token]);
  }

  /**
   * Looking the listing up by token finds the row's own listing; a buyer's or
   * seller's transaction then goes through exactly if the ticket is not spent.
   */
  lemma IntentNamesItsRow(c: Chain, was: map<nat, TicketRow>, row: nat)
    requires Consistent(c)
    ensures IntentTarget(Project(c, was), c, row) == if ActiveListing(c, row) then Some(row) else None
    ensures row in c.listings ==>
      && (Accepts(c, CancelListing(c.listings[row].seller, row))
          <==> ActiveListing(c, row) && c.listings[row].token !in c.spent)
      && (Accepts(c, ForceCancelListing(row)) <==> ActiveListing(c, row) && c.listings[row].token !in c.spent)
      && forall buyer :: buyer != c.listings[row].seller && buyer != MARKET ==>
           (Accepts(c, BuyListing(buyer, row, c.listings[row].price))
            <==> ActiveListing(c, row) && c.listings[row].token !in c.spent)
  {
  }

  /** While a listed ticket stays spent, nothing ends its listing: the marketplace keeps the ticket. */
  lemma {:induction false} SpentListingIsStuck(c: Chain, actions: seq<Action>, l: nat)
    requires Consistent(c) && ActiveListing(c, l) && c.listings[l].token in c.spent
    requires forall a :: a in actions && a.TicketChanges? && a.token == c.listings[l].token ==> a.isSpent
    ensures var d := RunChain(c, actions);
            && l in d.listings && d.listings[l] == c.listings[l] && c.listings[l].token in d.spent
            && c.listings[l].token in d.owner && d.owner[c.listings[l].token] == MARKET
  {
    if actions != [] {
      var early, a := actions[..|actions| - 1], actions[|actions| - 1];
      SpentListingIsStuck(c, early, l);
      AlwaysConsistent(c, early);
      if Accepts(RunChain(c, early), a) {
        StuckStep(RunChain(c, early), a, l);
      }
    }
  }

  lemma StuckStep(c: Chain, a: Action, l: nat)
    requires Consistent(c) && ActiveListing(c, l) && c.listings[l].token in c.spent && Accepts(c, a)
    requires a.TicketChanges? && a.token == c.listings[l].token ==> a.isSpent
    ensures var d := Act(c, a);
            && l in d.listings && d.listings[l] == c.listings[l] && c.listings[l].token in d.spent
            && c.listings[l].token in d.owner && d.owner[c.listings[l].token] == MARKET
  {
  }

  // ---- listings made without a transaction ----

  /** A ticket is listed exactly when it has an active row, and then it has one. */
  ghost predicate ListedOnce(db: Db)
  {
    && (forall t: nat, l: nat :: IsActiveRow(db.listings, t, l) ==> t in db.tickets && db.tickets[t].isListed)
    && (forall t :: t in db.tickets && db.tickets[t].isListed ==> exists l: nat :: IsActiveRow(db.listings, t, l))
    && (forall t: nat, l: nat, k: nat :: IsActiveRow(db.listings, t, l) && IsActiveRow(db.listings, t, k) ==> l == k)
  }

  datatype DirectStep = Create(row: nat, token: nat, price: nat, seller: string) | Cancel(row: nat, seller: string)

  function ApplyDirect(db: Db, s: DirectStep): Db
  {
    match s
    case Create(row, token, price, seller) =>
      if row in db.listings then db else CreateDirectly(db, row, token, price, seller)
    case Cancel(row, seller) => CancelDirectly(db, row, seller)
  }

  function RunDirect(db: Db, steps: seq<DirectStep>): Db
  {
    if steps == [] then db else ApplyDirect(RunDirect(db, steps[..|steps| - 1]), steps[|steps| - 1])
  }

  lemma CreateKeepsListedOnce(db: Db, row: nat, token: nat, price: nat, seller: string)
    requires ListedOnce(db) && row !in db.listings
    ensures ListedOnce(CreateDirectly(db, row, token, price, seller))
  {
    var after := CreateDirectly(db, row, token, price, seller);
    if after != db {
      assert forall t: nat, l: nat :: l != row ==>
               (IsActiveRow(after.listings, t, l) <==> IsActiveRow(db.listings, t, l));
      assert IsActiveRow(after.listings, token, row);
      forall t | t in after.tickets && after.tickets[t].isListed
        ensures exists l: nat :: IsActiveRow(after.listings, t, l)
      {
        if t != token {
          var l: nat :| IsActiveRow(db.listings, t, l);
          assert IsActiveRow(after.listings, t, l);
        }
      }
    }
  }

  lemma CancelKeepsListedOnce(db: Db, row: nat, seller: string)
    requires ListedOnce(db)
    ensures ListedOnce(CancelDirectly(db, row, seller))
  {
    var after := CancelDirectly(db, row, seller);
    if after != db {
      var token := db.listings[row].token;
      assert IsActiveRow(db.listings, token, row);
      assert forall t: nat, l: nat :: IsActiveRow(after.listings, t, l) <==> IsActiveRow(db.listings, t, l) && l != row;
      forall t | t in after.tickets && after.tickets[t].isListed
        ensures exists l: nat :: IsActiveRow(after.listings, t, l)
      {
        var l: nat :| IsActiveRow(db.listings, t, l);
        assert IsActiveRow(after.listings, t, l);
      }
    }
  }

  /** Over any run of direct listings and cancellations, a ticket is listed exactly when it has one active row. */
  lemma {:induction false} DirectRunsListOnce(db: Db, steps: seq<DirectStep>)
    requires ListedOnce(db)
    ensures ListedOnce(RunDirect(db, steps))
  {
    hide ListedOnce, CreateDirectly, CancelDirectly;
    if steps != [] {
      var before, s := RunDirect(db, steps[..|steps| - 1]), steps[|steps| - 1];
      DirectRunsListOnce(db, steps[..|steps| - 1]);
      match s
      case Create(row, token, price, seller) =>
        if row !in before.listings {
          CreateKeepsListedOnce(before, row, token, price, seller);
        }
      case Cancel(row, seller) => CancelKeepsListedOnce(before, row, seller);
    }
  }

  // ---- what a confirmation answers ----

  /** The wallet that has to sign: the buyer of a sale, else the seller. */
  function Signer(log: Log): string
  {
    match log
    case ListingCreated(_, _, seller, _, _) => seller
    case ListingSold(_, _, buyer) => buyer
    case ListingCancelled(_, _, seller) => seller
  }

  predicate ByOther(m: Confirmation)
  {
    m.wallet.Some? && m.wallet != Some(Signer(m.log))
  }

  lemma CreatedAnswersIff(db: Db, m: Confirmation)
    requires m.log.ListingCreated?
    ensures var r, l, token := ReplyTo(db, m), m.log.listing, m.log.token;
            var other := m.token.Some? && m.token != Some(token);
            var open := l in db.listings && db.listings[l].status == Active;
            && (r == BadRequest <==> ByOther(m) || other)
            && (r == NotFound <==> !ByOther(m) && !other && token !in db.tickets)
            && (r == AlreadySynced <==> !ByOther(m) && !other && token in db.tickets && open)
            && (r == Synced <==> !ByOther(m) && !other && token in db.tickets && !open)
            && (r == Synced ==>
                  Confirm(db, m)
                  == Db(db.listings[l := Listing(token, m.log.seller, m.log.price, m.log.maxPrice, Active, None)],
                                       db.tickets[token := TicketRow(MARKET, SoldTicket, true,
                                                                     db.tickets[token].originalPrice)]))
  {
  }

  /** A sale closes the row it is applied to, and hands the ticket's row, if there is one, to the buyer. */
  lemma SoldAnswersIff(db: Db, m: Confirmation, l: nat)
    requires m.log.ListingSold?
    requires m.listingId == Some(l) || (m.listingId == None && FindActive(db.listings, m.log.token) == Some(l))
    ensures var r, d, token := ReplyTo(db, m), Confirm(db, m), m.log.token;
            && (r == BadRequest <==> ByOther(m))
            && (r == NotFound <==> !ByOther(m) && l !in db.listings)
            && (r == AlreadySynced <==> !ByOther(m) && l in db.listings && db.listings[l].status == Sold)
            && (r == Synced <==> !ByOther(m) && l in db.listings && db.listings[l].status != Sold)
            && (r == Synced ==>
                  && d.listings == db.listings[l := db.listings[l].(status := Sold, soldTo := Some(m.log.buyer))]
                  && d.tickets.Keys == db.tickets.Keys
                  && forall t :: t in db.tickets ==>
                       d.tickets[t] == if t == token then TicketRow(m.log.buyer, SoldTicket, false,
                                                                    db.tickets[t].originalPrice) else db.tickets[t])
  {
  }

  /** So does a cancellation, to the seller; it prefers the contract's listing to the row that the caller names. */
  lemma CancelledAnswersIff(db: Db, m: Confirmation, l: nat)
    requires m.log.ListingCancelled?
    requires if m.log.listing in db.listings then l == m.log.listing else m.listingId == Some(l)
    ensures var r, d, token := ReplyTo(db, m), Confirm(db, m), m.log.token;
            && (r == BadRequest <==> ByOther(m))
            && (r == NotFound <==> !ByOther(m) && l !in db.listings)
            && (r == AlreadySynced <==> !ByOther(m) && l in db.listings && db.listings[l].status == Cancelled)
            && (r == Synced <==> !ByOther(m) && l in db.listings && db.listings[l].status != Cancelled)
            && (r == Synced ==>
                  && d.listings == db.listings[l := db.listings[l].(status := Cancelled)]
                  && d.tickets.Keys == db.tickets.Keys
                  && forall t :: t in db.tickets ==>
                       d.tickets[t] == if t == token then TicketRow(m.log.seller, SoldTicket, false,
                                                                    db.tickets[t].originalPrice) else db.tickets[t])
  {
  }

  /** On the contract a ticket can be listed exactly while it is sold, by its holder, within the cap, if it can move. */
  lemma ListableIff(c: Chain, token: nat, isSold: bool, isSpent: bool, sender: string, price: nat)
    requires token in c.owner && token in c.originalPrice
    ensures var d := Act(c, TicketChanges(token, isSold, isSpent));
            Accepts(d, Action.CreateListing(sender, token, price))
            <==> && isSold && !isSpent && c.owner[token] == sender && sender != MARKET && token !in c.active
                 && price > 0 && 100 * price <= 150 * c.originalPrice[token]
  {
  }

  /**
   * A direct listing is made exactly for the holder's own sold, unlisted
   * ticket at no more than one and a half its price.
   */
  lemma CreatesDirectlyIff(db: Db, row: nat, token: nat, price: nat, seller: string)
    requires row !in db.listings
    ensures var after := CreateDirectly(db, row, token, price, seller);
            var made := CreateReply(db, token, price, seller) == Done;
            && (made <==>
                  && token in db.tickets && db.tickets[token].owner == seller && db.tickets[token].status == SoldTicket
                  && !db.tickets[token].isListed && 10 * price <= 15 * db.tickets[token].originalPrice)
            && (if made
                then && after.tickets == db.tickets[token := db.tickets[token].(isListed := true)]
                     && after.listings.Keys == db.listings.Keys + {row} && after.listings - {row} == db.listings
                     && after.listings[row].token == token && after.listings[row].seller == seller
                     && after.listings[row].price == price && after.listings[row].status == Active
                else after == db)
            && (CreateReply(db, token, price, seller) == NoSuchTicket <==> token !in db.tickets)
            && (CreateReply(db, token, price, seller) == Forbidden
                <==> token in db.tickets && db.tickets[token].owner != seller)
  {
    var after := CreateDirectly(db, row, token, price, seller);
    assert after.listings - {row} == db.listings;
  }

  /** A direct cancellation is made exactly for the seller's own active listing. */
  lemma CancelsDirectlyIff(db: Db, row: nat, seller: string)
    ensures var after, made := CancelDirectly(db, row, seller), CancelReply(db, row, seller) == Done;
            && (made <==> row in db.listings && db.listings[row].seller == seller && db.listings[row].status == Active)
            && (if made
                then && after.listings == db.listings[row := db.listings[row].(status := Cancelled)]
                     && after.tickets.Keys == db.tickets.Keys
                     && (forall t :: t in db.tickets ==>
                           after.tickets[t] == if t == db.listings[row].token then db.tickets[t].(isListed := false)
                                               else db.tickets[t])
                else after == db)
            && (CancelReply(db, row, seller) == NoSuchListing <==> row !in db.listings)
            && (CancelReply(db, row, seller) == Forbidden <==> row in db.listings && db.listings[row].seller != seller)
  {
  }

  /** Cancelling what was just created gives back the tickets as they were, and a cancelled row. */
  lemma CancelUndoesCreate(db: Db, row: nat, token: nat, price: nat, seller: string)
    requires row !in db.listings && CreateReply(db, token, price, seller) == Done
    ensures var after := CancelDirectly(CreateDirectly(db, row, token, price, seller), row, seller);
            && after.tickets == db.tickets && after.listings.Keys == db.listings.Keys + {row}
            && after.listings[row].status == Cancelled && after.listings - {row} == db.listings
  {
    assert db.tickets[token].(isListed := true).(isListed := false) == db.tickets[token];
  }

  /**
   * Cancelling a listing of the contract directly hides its real cancellation: the later receipt counts as already
   * synced, and the ticket's row keeps the marketplace as its holder although the seller has the ticket back.
   */
  lemma DirectCancelHidesChainCancel(c: Chain, was: map<nat, TicketRow>, l: nat, m: Confirmation)
    requires Consistent(c) && c.owner.Keys == was.Keys && ActiveListing(c, l) && Honest(m)
    requires c.listings[l].token !in c.spent && m.log == LogOf(c, CancelListing(c.listings[l].seller, l))
    ensures var a := CancelListing(c.listings[l].seller, l);
            var direct := CancelDirectly(Project(c, was), l, c.listings[l].seller);
            && ReplyTo(direct, m) == AlreadySynced && Confirm(direct, m) == direct
            && m.log.token in direct.tickets && direct.tickets[m.log.token].owner == MARKET
            && m.log.token in Act(c, a).owner && Act(c, a).owner[m.log.token] == c.listings[l].seller != MARKET
  {
    assert EverListed(c, c.listings[l].token);
  }
}
