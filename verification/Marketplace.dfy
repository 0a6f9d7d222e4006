/**
 * The resale marketplace: the rules of the Marketplace contract with the logs
 * it emits, and the service that confirms receipts into listing and ticket
 * rows. Tickets change hands here only through the marketplace.
 */
module Marketplace {
  import opened Options

  // ---- the contract ----

  datatype ListingStatus = Active | Sold | Cancelled

  datatype Listing = Listing(
    token: nat, seller: string, price: nat, maxPrice: nat, status: ListingStatus, soldTo: Option<string>)

  /** The address of the marketplace itself, which holds every listed ticket. */
  const MARKET := "0xmarketplace"

  /**
   * Beside the marketplace's own state stand the tickets: their holders and
   * prices, which of them are sold, and which are spent, that is used,
   * refunded, or expired because their event has ended. The ticket contract
   * refuses every transfer of a spent ticket.
   */
  datatype Chain = Chain(
    counter: nat, listings: map<nat, Listing>, active: map<nat, nat>, owner: map<nat, string>,
    originalPrice: map<nat, nat>,
    sold: set<nat>, spent: set<nat>)

  datatype Action =
    | TicketChanges(token: nat, isSold: bool, isSpent: bool)
    | CreateListing(sender: string, token: nat, price: nat)
    | BuyListing(sender: string, listing: nat, value: nat)
    | CancelListing(sender: string, listing: nat)
    | ForceCancelListing(listing: nat)

  datatype Log =
    | ListingCreated(listing: nat, token: nat, seller: string, price: nat, maxPrice: nat)
    | ListingSold(listing: nat, token: nat, buyer: string)
    | ListingCancelled(listing: nat, token: nat, seller: string)

  function ChainMaxPrice(original: nat): nat
  {
    original * 150 / 100
  }

  predicate ActiveListing(c: Chain, l: nat)
  {
    l in c.listings && c.listings[l].status == Active
  }

  /** Anything this refuses is reverted and leaves no log. */
  predicate Accepts(c: Chain, a: Action)
  {
    match a
    case TicketChanges(_, _, _) => true
    case CreateListing(sender, token, price) =>
      token in c.owner && token in c.originalPrice && c.owner[token] == sender && sender != MARKET && price > 0
      && token !in c.active && token in c.sold && token !in c.spent && price <= ChainMaxPrice(c.originalPrice[token])
    case BuyListing(sender, l, value) =>
      ActiveListing(c, l) && c.listings[l].token !in c.spent
      && sender != c.listings[l].seller && sender != MARKET && value == c.listings[l].price
    case CancelListing(sender, l) =>
      ActiveListing(c, l) && c.listings[l].token !in c.spent && c.listings[l].seller == sender
    case ForceCancelListing(l) => ActiveListing(c, l) && c.listings[l].token !in c.spent
  }

  /** The next listing, with its ticket handed to the marketplace. */
  function Open(c: Chain, token: nat, listing: Listing): Chain
  {
    var l := c.counter + 1;
    c.(counter := l, active := c.active[token := l], owner := c.owner[token := MARKET],
       listings := c.listings[l := listing])
  }

  /** A listing that ends, with its ticket handed over. */
  function Close(c: Chain, l: nat, status: ListingStatus, to: string): Chain
    requires l in c.listings
  {
    var was := c.listings[l];
    c.(listings := c.listings[l := was.(status := status, soldTo := if status == Sold then Some(to) else was.soldTo)],
       active := c.active - {was.token}, owner := c.owner[was.token := to])
  }

  function Act(c: Chain, a: Action): Chain
    requires Accepts(c, a)
  {
    match a
    case TicketChanges(token, isSold, isSpent) =>
      c.(sold := if isSold then c.sold + {token} else c.sold - {token},
         spent := if isSpent then c.spent + {token} else c.spent - {token})
    case CreateListing(sender, token, price) =>
      Open(c, token, Listing(token, sender, price, ChainMaxPrice(c.originalPrice[token]), Active, None))
    case BuyListing(sender, l, _) => Close(c, l, Sold, sender)
    case CancelListing(_, l) => Close(c, l, Cancelled, c.listings[l].seller)
    case ForceCancelListing(l) => Close(c, l, Cancelled, c.listings[l].seller)
  }

  function LogOf(c: Chain, a: Action): Log
    requires Accepts(c, a) && !a.TicketChanges?
  {
    match a
    case CreateListing(sender, token, price) =>
      ListingCreated(c.counter + 1, token, sender, price, ChainMaxPrice(c.originalPrice[token]))
    case BuyListing(sender, l, _) => ListingSold(l, c.listings[l].token, sender)
    case CancelListing(_, l) => ListingCancelled(l, c.listings[l].token, c.listings[l].seller)
    case ForceCancelListing(l) => ListingCancelled(l, c.listings[l].token, c.listings[l].seller)
  }

  function RunChain(c: Chain, actions: seq<Action>): Chain
  {
    if actions == [] then c
    else
      var before, a := RunChain(c, actions[..|actions| - 1]), actions[|actions| - 1];
      if Accepts(before, a) then Act(before, a) else before
  }

  function Logs(c: Chain, actions: seq<Action>): seq<Log>
  {
    if actions == [] then []
    else
      var before, a := RunChain(c, actions[..|actions| - 1]), actions[|actions| - 1];
      Logs(c, actions[..|actions| - 1]) + if Accepts(before, a) && !a.TicketChanges? then [LogOf(before, a)] else []
  }

  // ---- the rows ----

  datatype TicketStatus = Minted | SoldTicket | OtherStatus

  datatype TicketRow = TicketRow(owner: string, status: TicketStatus, isListed: bool, originalPrice: nat)

  /** Listing rows are keyed by the listing id of the contract. */
  datatype Db = Db(listings: map<nat, Listing>, tickets: map<nat, TicketRow>)

  datatype Reply = Synced | AlreadySynced | NotFound | BadRequest

  /** A confirmation: the log found in the receipt, and what the caller adds to it. */
  datatype Confirmation = Confirmation(log: Log, listingId: Option<nat>, wallet: Option<string>, token: Option<nat>)

  ghost predicate IsActiveRow(listings: map<nat, Listing>, token: nat, l: nat)
  {
    l in listings && listings[l].token == token && listings[l].status == Active
  }

  /** Some active row of a token: which one, if there are several, is left to the database. */
  ghost function FindActive(listings: map<nat, Listing>, token: nat): (r: Option<nat>)
    ensures r.Some? ==> IsActiveRow(listings, token, r.value)
    ensures r.None? ==> forall l: nat :: !IsActiveRow(listings, token, l)
  {
    if l: nat :| IsActiveRow(listings, token, l) then Some(l) else None
  }

  function UpdateTicket(tickets: map<nat, TicketRow>, token: nat, owner: string, isListed: bool): map<nat, TicketRow>
  {
    if token !in tickets then tickets
    else tickets[token := tickets[token].(owner := owner, status := SoldTicket, isListed := isListed)]
  }

  predicate WalletMatches(m: Confirmation)
  {
    m.wallet.None? || m.wallet.value == (if m.log.ListingSold? then m.log.buyer else m.log.seller)
  }

  /** The listing a confirmation is applied to. */
  ghost function Target(db: Db, m: Confirmation): Option<nat>
  {
    match m.log
    case ListingCreated(l, _, _, _, _) => Some(l)
    case ListingSold(_, token, _) => if m.listingId.Some? then m.listingId else FindActive(db.listings, token)
    case ListingCancelled(l, _, _) => if l in db.listings then Some(l) else m.listingId
  }

  ghost function ReplyTo(db: Db, m: Confirmation): Reply
  {
    var target := Target(db, m);
    if !WalletMatches(m) then BadRequest
    else
      match m.log
      case ListingCreated(l, token, _, _, _) =>
        if m.token.Some? && m.token.value != token then BadRequest
        else if token !in db.tickets then NotFound
        else if l in db.listings && db.listings[l].status == Active then AlreadySynced
        else Synced
      case ListingSold(_, _, _) =>
        if target.None? || target.value !in db.listings then NotFound
        else if db.listings[target.value].status == Sold then AlreadySynced
        else Synced
      case ListingCancelled(_, _, _) =>
        if target.None? || target.value !in db.listings then NotFound
        else if db.listings[target.value].status == Cancelled then AlreadySynced
        else Synced
  }

  ghost function Confirm(db: Db, m: Confirmation): Db
  {
    var target := Target(db, m);
    if ReplyTo(db, m) != Synced then db
    else
      match m.log
      case ListingCreated(l, token, seller, price, maxPrice) =>
        Db(db.listings[l := Listing(token, seller, price, maxPrice, Active, None)],
           UpdateTicket(db.tickets, token, MARKET, true))
      case ListingSold(_, token, buyer) =>
        Db(db.listings[target.value := db.listings[target.value].(status := Sold, soldTo := Some(buyer))],
           UpdateTicket(db.tickets, token, buyer, false))
      case ListingCancelled(_, token, seller) =>
        Db(db.listings[target.value := db.listings[target.value].(status := Cancelled)],
           UpdateTicket(db.tickets, token, seller, false))
  }

  ghost function ConfirmAll(db: Db, ms: seq<Confirmation>): Db
  {
    if ms == [] then db else Confirm(ConfirmAll(db, ms[..|ms| - 1]), ms[|ms| - 1])
  }

  // ---- listings made without a transaction ----

  datatype DirectReply = Done | NoSuchTicket | NoSuchListing | Forbidden | Refused

  function BackendMaxPrice(original: nat): nat
  {
    original * 15 / 10
  }

  function CreateReply(db: Db, token: nat, price: nat, seller: string): DirectReply
  {
    if token !in db.tickets then NoSuchTicket
    else
      var t := db.tickets[token];
      if t.owner != seller then Forbidden
      else if t.status != SoldTicket || t.isListed || price > BackendMaxPrice(t.originalPrice) then Refused
      else Done
  }

  /** The new row has no listing id of the contract; its key is one that no listing has. */
  function CreateDirectly(db: Db, row: nat, token: nat, price: nat, seller: string): Db
    requires row !in db.listings
  {
    if CreateReply(db, token, price, seller) != Done then db
    else
      var t := db.tickets[token];
      Db(db.listings[row := Listing(token, seller, price, BackendMaxPrice(t.originalPrice), Active, None)],
         db.tickets[token := t.(isListed := true)])
  }

  function CancelReply(db: Db, row: nat, seller: string): DirectReply
  {
    if row !in db.listings then NoSuchListing
    else if db.listings[row].seller != seller then Forbidden
    else if db.listings[row].status != Active then Refused
    else Done
  }

  function CancelDirectly(db: Db, row: nat, seller: string): Db
  {
    if CancelReply(db, row, seller) != Done then db
    else
      var l := db.listings[row];
      Db(db.listings[row := l.(status := Cancelled)],
         if l.token in db.tickets then db.tickets[l.token := db.tickets[l.token].(isListed := false)] else db.tickets)
  }

  // ---- transaction intents ----

  /** What the service checks, in the database and on chain, before it builds a listing transaction. */
  predicate ListingIntentOk(db: Db, c: Chain, seller: string, token: nat, price: nat)
  {
    && token in db.tickets && db.tickets[token].owner == seller && db.tickets[token].status == SoldTicket
    && !db.tickets[token].isListed && price <= BackendMaxPrice(db.tickets[token].originalPrice)
    && token !in c.active && token in c.owner && c.owner[token] != MARKET && c.owner[token] == seller
  }

  /** The listing a buy or cancel transaction names is looked up on chain by the row's token. */
  function IntentTarget(db: Db, c: Chain, row: nat): Option<nat>
  {
    if row in db.listings && db.listings[row].status == Active && db.listings[row].token in c.active
    then Some(c.active[db.listings[row].token]) else None
  }

  // ---- the service ----

  class MarketplaceService {
    var listings: map<nat, Listing>
    var tickets: map<nat, TicketRow>

    function Now(): Db
      reads this
    {
      Db(listings, tickets)
    }

    method UpdateTicketStatus(token: nat, owner: string, isListed: bool)
      modifies this`tickets
      ensures tickets == UpdateTicket(old(tickets), token, owner, isListed)
    {
      if token in tickets {
        tickets := tickets[token := tickets[token].(owner := owner, status := SoldTicket, isListed := isListed)];
      }
    }

    method ConfirmListingCreated(m: Confirmation) returns (reply: Reply)
      requires m.log.ListingCreated?
      modifies this
      ensures Now() == Confirm(old(Now()), m) && reply == ReplyTo(old(Now()), m)
    {
      var log := m.log;
      if m.token.Some? && log.token != m.token.value {
        return BadRequest;
      }
      if m.wallet.Some? && log.seller != m.wallet.value {
        return BadRequest;
      }
      if log.token !in tickets {
        return NotFound;
      }
      if log.listing in listings && listings[log.listing].status == Active {
        return AlreadySynced;
      }
      listings := listings[log.listing := Listing(log.token, log.seller, log.price, log.maxPrice, Active, None)];
      UpdateTicketStatus(log.token, MARKET, true);
      return Synced;
    }

    /** found is what the query for an active listing of the token returns. */
    method ConfirmListingSold(m: Confirmation, found: Option<nat>) returns (reply: Reply)
      requires m.log.ListingSold? && found == FindActive(listings, m.log.token)
      modifies this
      ensures Now() == Confirm(old(Now()), m) && reply == ReplyTo(old(Now()), m)
    {
      var log := m.log;
      if m.wallet.Some? && log.buyer != m.wallet.value {
        return BadRequest;
      }
      var target := if m.listingId.Some? then m.listingId else found;
      if target.None? || target.value !in listings {
        return NotFound;
      }
      var listing := listings[target.value];
      if listing.status == Sold {
        return AlreadySynced;
      }
      listings := listings[target.value := listing.(status := Sold, soldTo := Some(log.buyer))];
      UpdateTicketStatus(log.token, log.buyer, false);
      return Synced;
    }

    method ConfirmListingCancelled(m: Confirmation) returns (reply: Reply)
      requires m.log.ListingCancelled?
      modifies this
      ensures Now() == Confirm(old(Now()), m) && reply == ReplyTo(old(Now()), m)
    {
      var log := m.log;
      if m.wallet.Some? && log.seller != m.wallet.value {
        return BadRequest;
      }
      var target := log.listing;
      if target !in listings {
        if m.listingId.None? || m.listingId.value !in listings {
          return NotFound;
        }
        target := m.listingId.value;
      }
      if listings[target].status == Cancelled {
        return AlreadySynced;
      }
      listings := listings[target := listings[target].(status := Cancelled)];
      UpdateTicketStatus(log.token, log.seller, false);
      return Synced;
    }

    method CreateListing(row: nat, token: nat, price: nat, seller: string) returns (reply: DirectReply)
      requires row !in listings
      modifies this
      ensures Now() == CreateDirectly(old(Now()), row, token, price, seller)
      ensures reply == CreateReply(old(Now()), token, price, seller)
    {
      if token !in tickets {
        return NoSuchTicket;
      }
      var ticket := tickets[token];
      if ticket.owner != seller {
        return Forbidden;
      }
      if ticket.status != SoldTicket || ticket.isListed {
        return Refused;
      }
      var maxPrice := BackendMaxPrice(ticket.originalPrice);
      if price > maxPrice {
        return Refused;
      }
      listings := listings[row := Listing(token, seller, price, maxPrice, Active, None)];
      tickets := tickets[token := ticket.(isListed := true)];
      return Done;
    }

    method CancelListing(row: nat, seller: string) returns (reply: DirectReply)
      modifies this
      ensures Now() == CancelDirectly(old(Now()), row, seller) && reply == CancelReply(old(Now()), row, seller)
    {
      if row !in listings {
        return NoSuchListing;
      }
      var listing := listings[row];
      if listing.seller != seller {
        return Forbidden;
      }
      if listing.status != Active {
        return Refused;
      }
      listings := listings[row := listing.(status := Cancelled)];
      if listing.token in tickets {
        tickets := tickets[listing.token := tickets[listing.token].(isListed := false)];
      }
      return Done;
    }
  }
}
