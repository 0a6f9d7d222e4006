/**
 * Starting ticketing: the mint plan of an event, the nested loops that send
 * each entry of the plan to the Fund contract in batches and record the minted
 * tickets, and what any number of attempts can leave behind.
 */
module Minting {
  import opened Options
  import opened Status
  import opened Text

  // ---- the plan ----

  datatype Tier = Tier(name: string, totalSupply: int, price: Option<int>)

  datatype Event = Event(tiers: seq<Tier>, maxTickets: Option<int>, totalTickets: Option<int>, ticketPrice: Option<int>)

  datatype Request = Request(quantity: Option<int>, ticketType: Option<nat>)

  datatype Batch = Batch(quantity: nat, ticketType: nat, price: int)

  datatype PlanError = QuantityRequired | PriceRequired | TotalsDiffer | TotalRequired

  function TierTicketType(name: string): nat
  {
    var n := Lower(Trim(name));
    if Contains(n, "vip") then 1 else if Contains(n, "early") then 2 else if Contains(n, "group") then 3 else 0
  }

  predicate Planned(t: Tier)
  {
    Trim(t.name) != [] && t.totalSupply > 0 && t.price.Some?
  }

  function TierPlan(tiers: seq<Tier>): (plan: seq<Batch>)
    ensures forall b :: b in plan ==> b.quantity > 0
  {
    if tiers == [] then []
    else
      var last := tiers[|tiers| - 1];
      TierPlan(tiers[..|tiers| - 1])
      + if Planned(last) then [Batch(last.totalSupply, TierTicketType(last.name), last.price.value)] else []
  }

  function OrElse(o: Option<int>, d: int): int
  {
    if o.Some? then o.value else d
  }

  function BasePrice(e: Event): int
  {
    OrElse(e.ticketPrice, if e.tiers == [] then 0 else OrElse(e.tiers[0].price, 0))
  }

  function FallbackQuantity(e: Event, q: Request): int
  {
    OrElse(q.quantity, OrElse(e.maxTickets, OrElse(e.totalTickets, 0)))
  }

  function BuildTicketMintPlan(e: Event, q: Request): (r: Result<seq<Batch>, PlanError>)
    ensures r.Ok? ==> r.value != [] && forall b :: b in r.value ==> b.quantity > 0
  {
    var plan := TierPlan(e.tiers);
    if plan != [] then Ok(plan)
    else
      var quantity := FallbackQuantity(e, q);
      if quantity <= 0 then Err(QuantityRequired)
      else if BasePrice(e) <= 0 then Err(PriceRequired)
      else Ok([Batch(quantity, if q.ticketType.Some? then q.ticketType.value else 0, BasePrice(e))])
  }

  /** What distinguishes one ticket of an event from another. */
  datatype Kind = Kind(ticketType: nat, price: int)

  /** The tickets of some batches, one by one. */
  function Tickets(s: seq<Batch>): multiset<Kind>
  {
    if s == [] then multiset{}
    else
      var before, b := Tickets(s[..|s| - 1]), s[|s| - 1];
      var k := Kind(b.ticketType, b.price);
      before[k := before[k] + b.quantity]
  }

  function TierTotal(tiers: seq<Tier>): nat
  {
    if tiers == [] then 0
    else
      var supply := tiers[|tiers| - 1].totalSupply;
      TierTotal(tiers[..|tiers| - 1]) + if supply > 0 then supply else 0
  }

  /** The number of tickets an event is published with, which the contract gets as its maximum. */
  function ResolveTotalTickets(tiers: seq<Tier>, requested: Option<int>): Result<nat, PlanError>
  {
    var total := TierTotal(tiers);
    if total > 0 then
      if requested.Some? && requested.value > 0 && requested.value != total then Err(TotalsDiffer) else Ok(total)
    else if requested.None? || requested.value <= 0 then Err(TotalRequired)
    else Ok(requested.value)
  }

  // ---- the calls ----

  /** One entry of the plan, cut into batches. */
  function Split(b: Batch, size: nat): (calls: seq<Batch>)
    requires size > 0
    ensures forall c :: c in calls ==> 1 <= c.quantity <= size && c.ticketType == b.ticketType && c.price == b.price
    decreases b.quantity
  {
    if b.quantity == 0 then []
    else
      var n := if b.quantity < size then b.quantity else size;
      [b.(quantity := n)] + Split(b.(quantity := b.quantity - n), size)
  }

  function Calls(plan: seq<Batch>, size: nat): seq<Batch>
    requires size > 0
  {
    if plan == [] then [] else Split(plan[0], size) + Calls(plan[1..], size)
  }

  // ---- the Fund contract and the ticket rows ----

  /** A minted batch carries consecutive token ids. */
  datatype Minted = Minted(first: nat, batch: Batch)

  datatype Chain = Chain(
    status: ChainStatus, sharesFinalized: bool, maxTickets: nat, ticketPrice: nat, minted: seq<Minted>, nextId: nat)

  datatype TicketRow = TicketRow(price: int, ticketType: nat)

  function Batches(m: seq<Minted>): (s: seq<Batch>)
    ensures |s| == |m|
  {
    seq(|m|, i requires 0 <= i < |m| => m[i].batch)
  }

  /** The contract reads a price of zero as the event's own price. */
  function Effective(c: Chain, b: Batch): Batch
  {
    if b.price == 0 then b.(price := c.ticketPrice) else b
  }

  predicate CanMint(c: Chain, b: Batch)
  {
    && (c.status == OnFunded || c.status == OnTicketing) && c.sharesFinalized && b.quantity > 0
    && |Tickets(Batches(c.minted))| + b.quantity <= c.maxTickets && Effective(c, b).price > 0 && b.ticketType <= 3
  }

  function Mint(c: Chain, b: Batch): Chain
    requires CanMint(c, b)
  {
    c.(minted := c.minted + [Minted(c.nextId, Effective(c, b))], nextId := c.nextId + b.quantity, status := OnTicketing)
  }

  /** An existing row keeps its price. */
  function Recorded(rows: map<nat, TicketRow>, first: nat, n: nat, b: Batch): map<nat, TicketRow>
  {
    if n == 0 then rows
    else
      var before, id := Recorded(rows, first, n - 1, b), first + n - 1;
      before[id := TicketRow(if id in before then before[id].price else b.price, b.ticketType)]
  }

  // ---- one attempt ----

  /** How one mint call ends: before the chain, recorded in full, or on chain with only some rows recorded. */
  datatype Outcome = Fails | Works | LandsThenThrows(written: nat)

  /** What the wallet's contract object offers: priced calls, only plain calls, or plain calls and raw transactions. */
  datatype Signer = Priced | Plain | PlainWithRunner

  /** Finalising a funding event fails or cancels it; its log may not be found in the receipt. */
  datatype Finalize = FinalizeFails | FinalizeCancels(reported: bool)

  type BatchSize = n: nat | n > 0 witness 1000

  /** seen is the status that the event is read with, which may be a cached one. */
  datatype Attempt = Attempt(
    event: Event, request: Request, seen: AppStatus, size: BatchSize, signer: Signer, inWindow: bool,
    finalize: Finalize,
    outcomes: nat -> Outcome)

  datatype World = World(chain: Chain, rows: map<nat, TicketRow>, status: AppStatus)

  datatype Progress = Progress(chain: Chain, rows: map<nat, TicketRow>, ok: bool)

  /** What is sent for a planned batch: a plain call carries no price, so it may only stand for the base price. */
  predicate Sendable(a: Attempt, b: Batch)
  {
    a.signer == Priced || b.price == BasePrice(a.event)
  }

  function Sent(a: Attempt, b: Batch): Batch
  {
    if a.signer == Priced then b else b.(price := 0)
  }

  function CallOnce(c: Chain, rows: map<nat, TicketRow>, a: Attempt, b: Batch, outcome: Outcome): Progress
  {
    if !Sendable(a, b) || outcome == Fails || !CanMint(c, Sent(a, b)) then Progress(c, rows, false)
    else
      var minted := Effective(c, Sent(a, b));
      var written :=
        if outcome.Works? || minted.quantity < outcome.written then minted.quantity else outcome.written;
      Progress(Mint(c, Sent(a, b)), Recorded(rows, c.nextId, written, minted), outcome.Works?)
  }

  /** The calls one after another, up to the first that fails; n counts the calls already sent. */
  function Sending(p: Progress, a: Attempt, calls: seq<Batch>, n: nat): Progress
    decreases |calls|
  {
    if calls == [] || !p.ok then p
    else Sending(CallOnce(p.chain, p.rows, a, calls[0], a.outcomes(n)), a, calls[1..], n + 1)
  }

  predicate RequiresPerTierPricing(plan: seq<Batch>, e: Event)
  {
    exists b :: b in plan && b.price != BasePrice(e)
  }

  /** The mint part of a transition to ticketing. */
  function MintPart(w: World, a: Attempt): (World, bool)
  {
    var r := BuildTicketMintPlan(a.event, a.request);
    if r.Err? || (a.signer == Plain && RequiresPerTierPricing(r.value, a.event)) then (w, false)
    else
      var p := Sending(Progress(w.chain, w.rows, true), a, Calls(r.value, a.size), 0);
      (World(p.chain, p.rows, if p.ok then Ticketing else w.status), p.ok)
  }

  /** What the contract keeps of an event that is not funding. */
  predicate FundRule(c: Chain)
  {
    c.sharesFinalized <==> c.status != OnFunding
  }

  function CancelledOnChain(c: Chain): Chain
  {
    c.(status := OnCancelled, sharesFinalized := true)
  }

  /** A transition to ticketing: the new world, and whether the caller got an event back rather than an error. */
  function AfterAttempt(w: World, a: Attempt): (World, bool)
  {
    if a.seen == Ticketing then (w, true)
    else if a.seen == Completed || !a.inWindow then (w, false)
    else if w.chain.status == OnTicketing then (w.(status := Ticketing), true)
    else if w.chain.status == OnFunding then
      if a.finalize.FinalizeFails? then (w, false)
      else
        (w.(chain := CancelledOnChain(w.chain), status := if a.finalize.reported then Cancelled else w.status), false)
    else MintPart(if a.seen == Funded then w else w.(status := Funded), a)
  }

  // ---- the service ----

  lemma SplitStep(b: Batch, size: nat, later: seq<Batch>)
    requires size > 0 && b.quantity > 0
    ensures var n := if b.quantity < size then b.quantity else size;
            && Split(b, size) + later != [] && (Split(b, size) + later)[0] == b.(quantity := n)
            && (Split(b, size) + later)[1..] == Split(b.(quantity := b.quantity - n), size) + later
  {
  }

  lemma SplitEnd(b: Batch, size: nat, later: seq<Batch>)
    requires size > 0
    ensures Split(b.(quantity := 0), size) + later == later
  {
  }

  lemma SendingStep(p: Progress, a: Attempt, calls: seq<Batch>, n: nat)
    requires p.ok && calls != []
    ensures Sending(p, a, calls, n)
            == Sending(CallOnce(p.chain, p.rows, a, calls[0], a.outcomes(n)), a, calls[1..], n + 1)
  {
  }

  lemma SendingStopped(p: Progress, a: Attempt, calls: seq<Batch>, n: nat)
    requires !p.ok || calls == []
    ensures Sending(p, a, calls, n) == p
  {
  }

  class TicketingService {
    var chain: Chain
    var rows: map<nat, TicketRow>
    var status: AppStatus

    function Now(): World
      reads this
    {
      World(chain, rows, status)
    }

    /** Sends one mint call and records the ticket ids of its receipt. */
    method SendBatch(a: Attempt, b: Batch, outcome: Outcome) returns (ok: bool)
      modifies this`chain, this`rows
      ensures Progress(chain, rows, ok) == CallOnce(old(chain), old(rows), a, b, outcome)
    {
      if !Sendable(a, b) || outcome == Fails || !CanMint(chain, Sent(a, b)) {
        return false;
      }
      var minted, first := Effective(chain, Sent(a, b)), chain.nextId;
      chain := Mint(chain, Sent(a, b));
      ghost var landed := chain;
      var id := first;
      while id < first + minted.quantity
        invariant first <= id <= first + minted.quantity && chain == landed
        invariant outcome.LandsThenThrows? ==> id - first <= outcome.written
        invariant rows == Recorded(old(rows), first, id - first, minted)
      {
        if outcome.LandsThenThrows? && id - first == outcome.written {
          return false;
        }
        rows := rows[id := TicketRow(if id in rows then rows[id].price else minted.price, minted.ticketType)];
        id := id + 1;
      }
      return outcome.Works?;
    }

    /** The nested loops: every entry of the plan in batches of at most the configured size. */
    method MintPlan(a: Attempt, plan: seq<Batch>) returns (ok: bool)
      modifies this`chain, this`rows
      ensures Progress(chain, rows, ok) == Sending(Progress(old(chain), old(rows), true), a, Calls(plan, a.size), 0)
    {
      hide CallOnce, Split, Sending;
      ghost var goal := Sending(Progress(chain, rows, true), a, Calls(plan, a.size), 0);
      var n := 0;
      for i := 0 to |plan|
        invariant Sending(Progress(chain, rows, true), a, Calls(plan[i..], a.size), n) == goal
      {
        ghost var later := Calls(plan[i + 1..], a.size);
        assert plan[i..][1..] == plan[i + 1..];
        var remaining: nat := plan[i].quantity;
        while remaining > 0
          invariant Sending(Progress(chain, rows, true), a, Split(plan[i].(quantity := remaining), a.size) + later, n)
                    == goal
        {
          var mintQty := if remaining < a.size then remaining else a.size;
          SplitStep(plan[i].(quantity := remaining), a.size, later);
          SendingStep(Progress(chain, rows, true), a, Split(plan[i].(quantity := remaining), a.size) + later, n);
          ok := SendBatch(a, plan[i].(quantity := mintQty), a.outcomes(n));
          if !ok {
            ghost var rest := Split(plan[i].(quantity := remaining - mintQty), a.size);
            SendingStopped(Progress(chain, rows, ok), a, rest + later, n + 1);
            return;
          }
          remaining, n := remaining - mintQty, n + 1;
        }
        SplitEnd(plan[i], a.size, later);
      }
      assert plan[|plan|..] == [];
      SendingStopped(Progress(chain, rows, true), a, Calls(plan[|plan|..], a.size), n);
      ok := true;
    }

    /** The transition to ticketing. */
    method UpdateToTicketing(a: Attempt) returns (ok: bool)
      modifies this
      ensures (Now(), ok) == AfterAttempt(old(Now()), a)
    {
      hide Sending, BuildTicketMintPlan;
      if a.seen == Ticketing {
        return true;
      }
      if a.seen == Completed || !a.inWindow {
        return false;
      }
      if chain.status == OnTicketing {
        status := Ticketing;
        return true;
      }
      if chain.status == OnFunding {
        if a.finalize.FinalizeFails? {
          return false;
        }
        chain := CancelledOnChain(chain);
        if a.finalize.reported {
          status := Cancelled;
        }
        return false;
      }
      if a.seen != Funded {
        status := Funded;
      }
      var plan := BuildTicketMintPlan(a.event, a.request);
      if plan.Err? || (a.signer == Plain && RequiresPerTierPricing(plan.value, a.event)) {
        return false;
      }
      ok := MintPlan(a, plan.value);
      if ok {
        status := Ticketing;
      }
    }
  }
}
