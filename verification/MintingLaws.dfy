/** Laws of minting: what one attempt mints, and what any number of attempts can leave behind. */
module MintingLaws {
  import opened Options
  import opened Status
  import opened Text
  import opened Minting
  import Lifecycle

  // ---- the calls mint exactly the plan ----

  lemma {:induction false} TicketsConcat(s: seq<Batch>, t: seq<Batch>)
    ensures Tickets(s + t) == Tickets(s) + Tickets(t)
  {
    if t == [] {
      assert s + t == s;
    } else {
      var init, b := t[..|t| - 1], t[|t| - 1];
      TicketsConcat(s, init);
      assert (s + t)[..|s + t| - 1] == s + init && (s + t)[|s + t| - 1] == b;
    }
  }

  lemma TicketsAppend(s: seq<Batch>, b: Batch)
    ensures |Tickets(s + [b])| == |Tickets(s)| + b.quantity
    ensures Tickets(s + [b]) == Tickets(s) + Tickets([b])
  {
    TicketsConcat(s, [b]);
    assert |Tickets([b])| == b.quantity by {
      assert Tickets([b]) == multiset{}[Kind(b.ticketType, b.price) := b.quantity];
    }
  }

  lemma CutInTwo(b: Batch, n: nat)
    requires n <= b.quantity
    ensures Tickets([b.(quantity := n)]) + Tickets([b.(quantity := b.quantity - n)]) == Tickets([b])
  {
    var k := Kind(b.ticketType, b.price);
    assert forall m: nat :: Tickets([b.(quantity := m)]) == multiset{}[k := m];
    assert b.(quantity := b.quantity) == b;
  }

  lemma {:induction false} SplitMints(b: Batch, size: nat)
    requires size > 0
    ensures Tickets(Split(b, size)) == Tickets([b])
    decreases b.quantity
  {
    if b.quantity == 0 {
      CutInTwo(b, 0);
    } else {
      hide Tickets;
      var n := if b.quantity < size then b.quantity else size;
      var rest := b.(quantity := b.quantity - n);
      SplitMints(rest, size);
      CutInTwo(b, n);
      TicketsConcat([b.(quantity := n)], Split(rest, size));
    }
  }

  /** Whatever the batch size, the calls carry exactly the planned tickets, each at its own type and price. */
  lemma {:induction false} CallsMintThePlan(plan: seq<Batch>, size: nat)
    requires size > 0
    ensures Tickets(Calls(plan, size)) == Tickets(plan)
    ensures forall b :: b in Calls(plan, size) ==> 1 <= b.quantity <= size
  {
    if plan != [] {
      CallsMintThePlan(plan[1..], size);
      SplitMints(plan[0], size);
      TicketsConcat(Split(plan[0], size), Calls(plan[1..], size));
      TicketsConcat([plan[0]], plan[1..]);
      assert [plan[0]] + plan[1..] == plan;
    }
  }

  // ---- what is planned ----

  /** A tier that can be sold: it has a name, a supply and a price. */
  predicate Sellable(t: Tier)
  {
    Trim(t.name) != "" && t.totalSupply > 0 && t.price.Some?
  }

  function SellableIn(tiers: seq<Tier>): nat
  {
    if tiers == [] then 0 else SellableIn(tiers[..|tiers| - 1]) + if Sellable(tiers[|tiers| - 1]) then 1 else 0
  }

  /** The entry carries supply and price of the tier, and the type that its name mentions first. */
  predicate EntryOf(b: Batch, t: Tier)
  {
    var name := Lower(Trim(t.name));
    && b.quantity == t.totalSupply && t.price == Some(b.price) && b.ticketType <= 3
    && (b.ticketType == 1 <==> Contains(name, "vip"))
    && (b.ticketType == 2 <==> Contains(name, "early") && !Contains(name, "vip"))
    && (b.ticketType == 3 <==> Contains(name, "group") && !Contains(name, "vip") && !Contains(name, "early"))
  }

  lemma {:induction false} PlanSize(tiers: seq<Tier>)
    ensures |TierPlan(tiers)| == SellableIn(tiers)
  {
    if tiers != [] {
      PlanSize(tiers[..|tiers| - 1]);
    }
  }

  /** The plan has one entry for each tier that can be sold, in their order. */
  lemma {:induction false} PlanFollowsTiers(tiers: seq<Tier>, i: nat)
    requires i < |tiers|
    ensures |TierPlan(tiers)| == SellableIn(tiers)
    ensures Sellable(tiers[i]) ==>
              SellableIn(tiers[..i]) < |TierPlan(tiers)| && EntryOf(TierPlan(tiers)[SellableIn(tiers[..i])], tiers[i])
  {
    hide Contains, Trim;
    var n := |tiers| - 1;
    PlanSize(tiers);
    PlanSize(tiers[..n]);
    if i < n {
      PlanFollowsTiers(tiers[..n], i);
      assert tiers[..n][..i] == tiers[..i];
    }
  }

  /** The first value that is there. */
  predicate FirstOf(r: int, a: Option<int>, b: Option<int>, c: Option<int>)
  {
    && (a.Some? ==> r == a.value)
    && (a.None? && b.Some? ==> r == b.value)
    && (a.None? && b.None? ==> r == if c.Some? then c.value else 0)
  }

  /**
   * Without a tier that can be sold, one entry is planned: for the requested
   * number, the maximum or the total, at the event's price or that of its
   * first tier; both have to be positive.
   */
  lemma FallbackPlanIff(e: Event, q: Request, quantity: int, price: int)
    requires forall t :: t in e.tiers ==> !Sellable(t)
    requires FirstOf(quantity, q.quantity, e.maxTickets, e.totalTickets)
    requires FirstOf(price, e.ticketPrice, if e.tiers == [] then None else e.tiers[0].price, None)
    ensures var r := BuildTicketMintPlan(e, q);
            && (quantity <= 0 ==> r == Err(QuantityRequired))
            && (quantity > 0 && price <= 0 ==> r == Err(PriceRequired))
            && (quantity > 0 && price > 0 ==>
                  && r.Ok? && |r.value| == 1 && r.value[0].quantity == quantity && r.value[0].price == price
                  && r.value[0].ticketType == if q.ticketType.Some? then q.ticketType.value else 0)
  {
    PlanSize(e.tiers);
    NoneSellable(e.tiers);
  }

  lemma {:induction false} NoneSellable(tiers: seq<Tier>)
    requires forall t :: t in tiers ==> !Sellable(t)
    ensures SellableIn(tiers) == 0
  {
    if tiers != [] {
      assert tiers[|tiers| - 1] in tiers;
      NoneSellable(tiers[..|tiers| - 1]);
    }
  }

  /** And with such a tier the plan is that of the tiers, whatever is requested. */
  lemma TiersDecide(e: Event, q: Request, t: Tier)
    requires t in e.tiers && Sellable(t)
    ensures BuildTicketMintPlan(e, q) == Ok(TierPlan(e.tiers))
  {
    var i :| 0 <= i < |e.tiers| && e.tiers[i] == t;
    PlanFollowsTiers(e.tiers, i);
  }

  // ---- the plan against the published number of tickets ----

  predicate Kept(tiers: seq<Tier>)
  {
    forall t :: t in tiers && t.totalSupply > 0 ==> Planned(t)
  }

  /**
   * An event is published with the sum of its tiers, or without tiers with
   * the number requested, if they do not differ.
   */
  lemma PublishedTotalIff(tiers: seq<Tier>, requested: Option<int>)
    ensures var r, sum := ResolveTotalTickets(tiers, requested), TierTotal(tiers);
            var asks := requested.Some? && requested.value >= 1;
            && (r == Err(TotalsDiffer) <==> sum > 0 && asks && requested != Some(sum))
            && (r == Err(TotalRequired) <==> sum == 0 && !asks)
            && (r.Ok? ==> r.value > 0 && if sum > 0 then r.value == sum else requested == Some(r.value))
            && (r.Err? ==> r.error == TotalsDiffer || r.error == TotalRequired)
  {
  }

  lemma TierPlanStep(before: seq<Tier>, t: Tier)
    ensures TierTotal(before + [t]) == TierTotal(before) + if t.totalSupply > 0 then t.totalSupply else 0
    ensures Planned(t) ==> t.totalSupply > 0
    ensures |Tickets(TierPlan(before + [t]))| == |Tickets(TierPlan(before))| + if Planned(t) then t.totalSupply else 0
  {
    hide Tickets, TierTicketType, Contains, Trim;
    assert (before + [t])[..|before|] == before;
    if Planned(t) {
      TicketsAppend(TierPlan(before), Batch(t.totalSupply, TierTicketType(t.name), t.price.value));
    } else {
      assert TierPlan(before + [t]) == TierPlan(before);
    }
  }

  lemma {:induction false} TierPlanTotal(tiers: seq<Tier>)
    ensures |Tickets(TierPlan(tiers))| <= TierTotal(tiers)
    ensures |Tickets(TierPlan(tiers))| == TierTotal(tiers) <==> Kept(tiers)
  {
    if tiers != [] {
      hide Tickets, Planned, TierPlan, TierTotal;
      var before, last := tiers[..|tiers| - 1], tiers[|tiers| - 1];
      assert tiers == before + [last];
      TierPlanTotal(before);
      TierPlanStep(before, last);
    }
  }

  /** The plan mints the published total exactly when no tier with supply is dropped for its name or price. */
  lemma PlanCoversTiersIff(e: Event, q: Request, published: nat)
    requires ResolveTotalTickets(e.tiers, e.totalTickets) == Ok(published)
    requires BuildTicketMintPlan(e, q).Ok?
    ensures |Tickets(BuildTicketMintPlan(e, q).value)| == published
            <==> if TierPlan(e.tiers) == [] then FallbackQuantity(e, q) == published else Kept(e.tiers)
  {
    TierPlanTotal(e.tiers);
  }

  // ---- one attempt ----

  function AsMinted(c: Chain, a: Attempt, calls: seq<Batch>): (s: seq<Batch>)
    ensures |s| == |calls|
  {
    seq(|calls|, i requires 0 <= i < |calls| => Effective(c, Sent(a, calls[i])))
  }

  /** A chain that is not in ticketing has minted nothing. */
  predicate Started(c: Chain)
  {
    c.status == OnTicketing || c.minted == []
  }

  lemma CallOnceEffects(c: Chain, rows: map<nat, TicketRow>, a: Attempt, b: Batch, o: Outcome)
    ensures var r := CallOnce(c, rows, a, b, o);
            || (!r.ok && r.chain == c && r.rows == rows)
            || (CanMint(c, Sent(a, b)) && r.chain == Mint(c, Sent(a, b)) && r.ok == o.Works?)
  {
  }

  lemma MintGrows(c: Chain, a: Attempt, b: Batch)
    requires CanMint(c, Sent(a, b))
    ensures var m := Mint(c, Sent(a, b));
            && m.status == OnTicketing && m.maxTickets == c.maxTickets && m.ticketPrice == c.ticketPrice
            && m.sharesFinalized == c.sharesFinalized
            && Batches(m.minted) == Batches(c.minted) + AsMinted(c, a, [b])
            && |Tickets(Batches(m.minted))| == |Tickets(Batches(c.minted))| + b.quantity <= c.maxTickets
  {
    hide Tickets;
    TicketsAppend(Batches(c.minted), Effective(c, Sent(a, b)));
    assert Batches(Mint(c, Sent(a, b)).minted) == Batches(c.minted) + [Effective(c, Sent(a, b))];
  }

  lemma AsMintedConcat(c: Chain, d: Chain, a: Attempt, s: seq<Batch>, t: seq<Batch>)
    requires c.ticketPrice == d.ticketPrice
    ensures AsMinted(c, a, s + t) == AsMinted(c, a, s) + AsMinted(d, a, t)
  {
  }

  /** The calls mint a prefix of what is planned, in order; all of it if none fails. */
  lemma {:induction false} SendingMintsPrefix(p: Progress, a: Attempt, calls: seq<Batch>, n: nat) returns (k: nat)
    ensures k <= |calls|
    ensures var r := Sending(p, a, calls, n);
            && Batches(r.chain.minted) == Batches(p.chain.minted) + AsMinted(p.chain, a, calls[..k])
            && (r.ok ==> p.ok && k == |calls|) && (k > 0 ==> r.chain.status == OnTicketing)
            && (k == 0 ==> r.chain == p.chain)
            && r.chain.maxTickets == p.chain.maxTickets && r.chain.ticketPrice == p.chain.ticketPrice
            && |Tickets(Batches(r.chain.minted))|
               <= if k == 0 then |Tickets(Batches(p.chain.minted))| else r.chain.maxTickets
    decreases |calls|
  {
    hide CallOnce, CanMint, Mint, Tickets, Effective;
    k := 0;
    if calls != [] && p.ok {
      var b := calls[0];
      var next := CallOnce(p.chain, p.rows, a, b, a.outcomes(n));
      CallOnceEffects(p.chain, p.rows, a, b, a.outcomes(n));
      if next.ok || next.chain != p.chain {
        MintGrows(p.chain, a, b);
        var k' := SendingMintsPrefix(next, a, calls[1..], n + 1);
        k := 1 + k';
        assert calls[..k] == [b] + calls[1..][..k'];
        AsMintedConcat(p.chain, next.chain, a, [b], calls[1..][..k']);
      }
    }
  }

  // ---- any number of attempts ----

  function Run(w: World, attempts: seq<Attempt>): World
  {
    if attempts == [] then w else AfterAttempt(Run(w, attempts[..|attempts| - 1]), attempts[|attempts| - 1]).0
  }

  function PlannedTotal(a: Attempt): nat
  {
    var r := BuildTicketMintPlan(a.event, a.request);
    if r.Ok? then |Tickets(r.value)| else 0
  }

  function MintedTickets(c: Chain): multiset<Kind>
  {
    Tickets(Batches(c.minted))
  }

  lemma TicketsLast(s: seq<Batch>)
    requires s != []
    ensures |Tickets(s)| == |Tickets(s[..|s| - 1])| + s[|s| - 1].quantity
  {
    TicketsAppend(s[..|s| - 1], s[|s| - 1]);
    assert s == s[..|s| - 1] + [s[|s| - 1]];
  }

  lemma {:induction false} SameQuantities(s: seq<Batch>, t: seq<Batch>)
    requires |s| == |t| && forall i :: 0 <= i < |s| ==> s[i].quantity == t[i].quantity
    ensures |Tickets(s)| == |Tickets(t)|
  {
    if s == [] {
      assert s == t;
    } else {
      hide Tickets;
      SameQuantities(s[..|s| - 1], t[..|t| - 1]);
      TicketsLast(s);
      TicketsLast(t);
    }
  }

  lemma AsMintedTotal(c: Chain, a: Attempt, calls: seq<Batch>)
    ensures |Tickets(AsMinted(c, a, calls))| == |Tickets(calls)|
  {
    SameQuantities(AsMinted(c, a, calls), calls);
  }

  lemma NoTickets()
    ensures Tickets([]) == multiset{}
  {
  }

  /** An attempt mints through the mint part or not at all, and otherwise leaves a fresh chain fresh. */
  lemma AttemptCases(w: World, a: Attempt) returns (from: World)
    ensures from.chain.minted == w.chain.minted && from.chain.ticketPrice == w.chain.ticketPrice
    ensures from.chain.maxTickets == w.chain.maxTickets && from.rows == w.rows && from.chain.nextId == w.chain.nextId
    ensures w.chain.status == OnTicketing ==> AfterAttempt(w, a).0.chain == w.chain
    ensures w.chain.status != OnFunding ==> from.chain == w.chain
    ensures
      || (AfterAttempt(w, a).0.chain == from.chain
          && (AfterAttempt(w, a).1 ==> a.seen == Ticketing || w.chain.status == OnTicketing))
      || (AfterAttempt(w, a) == MintPart(from, a) && w.chain.status != OnTicketing && a.seen != Ticketing)
  {
    hide MintPart;
    if w.chain.status == OnFunding {
      from := AfterAttempt(w, a).0;
    } else {
      from := if a.seen == Funded then w else w.(status := Funded);
    }
  }

  /** What the mint part mints on a fresh chain: a prefix of its calls, all of them if it succeeds. */
  lemma MintPartMints(w: World, a: Attempt) returns (calls: seq<Batch>, k: nat)
    requires w.chain.minted == []
    ensures k <= |calls| && |Tickets(calls)| == PlannedTotal(a)
    ensures var r := BuildTicketMintPlan(a.event, a.request); calls == if r.Ok? then Calls(r.value, a.size) else []
    ensures var w', ok := MintPart(w, a).0, MintPart(w, a).1;
            && Batches(w'.chain.minted) == AsMinted(w.chain, a, calls[..k])
            && (ok ==> k == |calls| && BuildTicketMintPlan(a.event, a.request).Ok?)
            && (k > 0 ==> w'.chain.status == OnTicketing) && (k == 0 ==> w'.chain == w.chain)
            && w'.chain.maxTickets == w.chain.maxTickets && |MintedTickets(w'.chain)| <= w.chain.maxTickets
  {
    hide Tickets, Sending, BuildTicketMintPlan, Effective, AsMinted;
    NoTickets();
    var r := BuildTicketMintPlan(a.event, a.request);
    calls, k := [], 0;
    assert calls[..k] == [] && AsMinted(w.chain, a, []) == [];
    assert Batches(w.chain.minted) == [];
    if r.Ok? {
      calls := Calls(r.value, a.size);
      assert calls[..k] == [];
      CallsMintThePlan(r.value, a.size);
      if a.signer != Plain || !RequiresPerTierPricing(r.value, a.event) {
        k := SendingMintsPrefix(Progress(w.chain, w.rows, true), a, calls, 0);
      }
    }
  }

  /** A prefix of the calls carries no more than all of them, and as much only if nothing with tickets is missing. */
  lemma PrefixTotal(c: Chain, a: Attempt, calls: seq<Batch>, k: nat)
    requires k <= |calls| && forall b :: b in calls ==> b.quantity > 0
    ensures |Tickets(AsMinted(c, a, calls[..k]))| <= |Tickets(calls)|
    ensures |Tickets(AsMinted(c, a, calls[..k]))| == |Tickets(calls)| <==> k == |calls|
  {
    hide Tickets;
    AsMintedTotal(c, a, calls[..k]);
    TicketsConcat(calls[..k], calls[k..]);
    assert calls == calls[..k] + calls[k..];
    if k < |calls| {
      TicketsConcat([calls[k]], calls[k + 1..]);
      TicketsAppend([], calls[k]);
      assert [] + [calls[k]] == [calls[k]] && calls[k..] == [calls[k]] + calls[k + 1..] && calls[k] in calls;
    } else {
      NoTickets();
      assert calls[k..] == [];
    }
  }

  /** An attempt on a fresh chain never mints more than it planned, nor more than the contract's maximum. */
  lemma AttemptNeverExceedsPlan(w: World, a: Attempt)
    requires w.chain.minted == []
    ensures var c := AfterAttempt(w, a).0.chain;
            && |MintedTickets(c)| <= PlannedTotal(a) && |MintedTickets(c)| <= c.maxTickets
            && (c.minted == [] || c.status == OnTicketing)
  {
    hide Tickets, AfterAttempt, MintPart, BuildTicketMintPlan;
    NoTickets();
    assert Batches([]) == [];
    var from := AttemptCases(w, a);
    var calls, k := MintPartMints(from, a);
    if BuildTicketMintPlan(a.event, a.request).Ok? {
      CallsMintThePlan(BuildTicketMintPlan(a.event, a.request).value, a.size);
      PrefixTotal(from.chain, a, calls, k);
    }
  }

  /** Once anything is minted, no later attempt mints again, whatever it asks for and whatever fails. */
  lemma {:induction false} FirstMintDecides(w: World, attempts: seq<Attempt>)
    requires w.chain.status == OnTicketing
    ensures Run(w, attempts).chain == w.chain
  {
    if attempts != [] {
      FirstMintDecides(w, attempts[..|attempts| - 1]);
      var _ := AttemptCases(Run(w, attempts[..|attempts| - 1]), attempts[|attempts| - 1]);
    }
  }

  /** Over any attempts, the tickets minted exceed neither the largest plan nor the contract's maximum. */
  lemma {:induction false} PlanNeverExceeded(w: World, attempts: seq<Attempt>, most: nat)
    requires w.chain.minted == [] && forall a :: a in attempts ==> PlannedTotal(a) <= most
    ensures var c := Run(w, attempts).chain;
            && |MintedTickets(c)| <= most && (c.minted == [] || |MintedTickets(c)| <= c.maxTickets)
            && (c.minted == [] || c.status == OnTicketing)
  {
    hide Tickets, AfterAttempt, PlannedTotal;
    if attempts == [] {
      NoTickets();
      assert Batches([]) == [];
    } else {
      var before, a := attempts[..|attempts| - 1], attempts[|attempts| - 1];
      PlanNeverExceeded(w, before, most);
      if Run(w, before).chain.minted == [] {
        AttemptNeverExceedsPlan(Run(w, before), a);
      } else {
        var _ := AttemptCases(Run(w, before), a);
      }
    }
  }

  /**
   * The attempt that mints first either mints its whole plan or leaves the event short for good:
   * every retry then reports success and shows the event as ticketing.
   */
  lemma PartialMintIsNeverCompleted(w: World, a: Attempt, retries: seq<Attempt>, again: Attempt)
    requires w.chain.minted == [] && AfterAttempt(w, a).0.chain.minted != []
    ensures var c := Run(AfterAttempt(w, a).0, retries).chain;
            |MintedTickets(c)| == |MintedTickets(AfterAttempt(w, a).0.chain)| <= PlannedTotal(a)
    ensures var w' := Run(AfterAttempt(w, a).0, retries);
            again.inWindow && again.seen != Completed && (again.seen == Ticketing ==> w'.status == Ticketing) ==>
              AfterAttempt(w', again).1 && AfterAttempt(w', again).0 == w'.(status := Ticketing)
  {
    AttemptNeverExceedsPlan(w, a);
    FirstMintDecides(AfterAttempt(w, a).0, retries);
  }

  // ---- a complete mint ----

  /**
   * The price a planned batch asks for is the one it is minted at: sent and
   * not zero, or equal to the contract's own.
   */
  predicate PriceKept(c: Chain, a: Attempt, b: Batch)
  {
    (a.signer == Priced && b.price != 0) || b.price == c.ticketPrice
  }

  lemma {:induction false} NoneOfKind(s: seq<Batch>, k: Kind)
    requires forall b :: b in s && b.quantity > 0 ==> Kind(b.ticketType, b.price) != k
    ensures Tickets(s)[k] == 0
  {
    if s != [] {
      NoneOfKind(s[..|s| - 1], k);
    }
  }

  lemma {:induction false} SomeOfKind(s: seq<Batch>, b: Batch)
    requires b in s && b.quantity > 0
    ensures Tickets(s)[Kind(b.ticketType, b.price)] > 0
  {
    if b != s[|s| - 1] {
      SomeOfKind(s[..|s| - 1], b);
    }
  }

  lemma {:induction false} CallsOfPlan(plan: seq<Batch>, size: nat, b: Batch)
    requires size > 0 && b in Calls(plan, size)
    ensures exists p :: p in plan && p.ticketType == b.ticketType && p.price == b.price
  {
    if b in Split(plan[0], size) {
      assert plan[0] in plan;
    } else {
      CallsOfPlan(plan[1..], size, b);
    }
  }

  /** A successful sending has minted every call at a positive price, under the contract's rules. */
  lemma {:induction false} SendingSucceedsOnly(p: Progress, a: Attempt, calls: seq<Batch>, n: nat)
    requires Sending(p, a, calls, n).ok
    ensures forall b :: b in calls ==> Sendable(a, b) && Effective(p.chain, Sent(a, b)).price > 0 && b.ticketType <= 3
    decreases |calls|
  {
    if calls != [] {
      var next := CallOnce(p.chain, p.rows, a, calls[0], a.outcomes(n));
      assert next.ok;
      SendingSucceedsOnly(next, a, calls[1..], n + 1);
      assert forall b :: b in calls ==> b == calls[0] || b in calls[1..];
    }
  }

  /** The minted tickets are the planned ones, type by type and price by price, exactly when every price is kept. */
  lemma CompleteMintMatchesPlanIff(w: World, a: Attempt)
    requires w.chain.minted == [] && MintPart(w, a).1
    ensures var plan := BuildTicketMintPlan(a.event, a.request).value;
            MintedTickets(MintPart(w, a).0.chain) == Tickets(plan)
            <==> forall b :: b in plan ==> PriceKept(w.chain, a, b)
  {
    hide Tickets, Calls, BuildTicketMintPlan;
    var plan := BuildTicketMintPlan(a.event, a.request).value;
    var calls, k := MintPartMints(w, a);
    var minted := AsMinted(w.chain, a, calls);
    assert calls[..k] == calls;
    CallsMintThePlan(plan, a.size);
    SendingSucceedsOnly(Progress(w.chain, w.rows, true), a, calls, 0);
    if b :| b in plan && !PriceKept(w.chain, a, b) {
      SomeOfKind(plan, b);
      assert forall m :: m in minted ==> m.price != b.price;
      NoneOfKind(minted, Kind(b.ticketType, b.price));
    } else {
      forall i | 0 <= i < |calls|
        ensures minted[i] == calls[i]
      {
        CallsOfPlan(plan, a.size, calls[i]);
      }
      assert minted == calls;
    }
  }

  /** What the contract asks of a call apart from its room for tickets. */
  predicate Acceptable(c: Chain, a: Attempt, b: Batch)
  {
    Sendable(a, b) && Effective(c, Sent(a, b)).price > 0 && b.ticketType <= 3
  }

  lemma {:induction false} SendingSucceedsIff(p: Progress, a: Attempt, calls: seq<Batch>, n: nat)
    requires p.ok && forall m :: a.outcomes(m) == Works
    requires p.chain.status == OnFunded || p.chain.status == OnTicketing
    requires p.chain.sharesFinalized && forall b :: b in calls ==> b.quantity > 0
    requires |MintedTickets(p.chain)| <= p.chain.maxTickets
    ensures Sending(p, a, calls, n).ok
            <==> |MintedTickets(p.chain)| + |Tickets(calls)| <= p.chain.maxTickets
                 && forall b :: b in calls ==> Acceptable(p.chain, a, b)
    decreases |calls|
  {
    hide Tickets;
    NoTickets();
    if calls != [] {
      var b, rest := calls[0], calls[1..];
      var next := CallOnce(p.chain, p.rows, a, b, a.outcomes(n));
      TicketsAppend([], b);
      TicketsConcat([b], rest);
      assert calls == [b] + rest && [] + [b] == [b] && b in calls;
      assert next.ok <==> CanMint(p.chain, Sent(a, b)) && Sendable(a, b);
      if next.ok {
        MintGrows(p.chain, a, b);
        assert forall x :: Acceptable(next.chain, a, x) <==> Acceptable(p.chain, a, x);
        SendingSucceedsIff(next, a, rest, n + 1);
      }
    }
  }

  /**
   * With no faults, an event that is funded on chain is ticketed exactly when
   * the contract can accept its whole plan.
   */
  lemma FaultFreeMintSucceedsIff(w: World, a: Attempt)
    requires FundRule(w.chain) && w.chain.minted == [] && w.chain.status == OnFunded
    requires a.seen != Ticketing && a.seen != Completed && a.inWindow
    requires forall n :: a.outcomes(n) == Works
    ensures AfterAttempt(w, a).1
            <==> && BuildTicketMintPlan(a.event, a.request).Ok? && PlannedTotal(a) <= w.chain.maxTickets
                 && forall b :: b in BuildTicketMintPlan(a.event, a.request).value ==> Acceptable(w.chain, a, b)
  {
    hide Tickets, BuildTicketMintPlan, Sending, Calls;
    NoTickets();
    if BuildTicketMintPlan(a.event, a.request).Err? {
      return;
    }
    var plan := BuildTicketMintPlan(a.event, a.request).value;
    var calls := Calls(plan, a.size);
    var p := Progress(w.chain, w.rows, true);
    assert Batches(w.chain.minted) == [];
    CallsMintThePlan(plan, a.size);
    CallsCoverPlan(plan, a.size);
    forall b | b in calls && forall p :: p in plan ==> Acceptable(w.chain, a, p)
      ensures Acceptable(w.chain, a, b)
    {
      CallsOfPlan(plan, a.size, b);
    }
    SendingSucceedsIff(p, a, calls, 0);
  }

  /** The contract object can send plain calls only, and the transition sees that before it mints. */
  predicate Refused(a: Attempt, plan: seq<Batch>)
  {
    a.signer == Plain && RequiresPerTierPricing(plan, a.event)
  }

  /** The first call of a plan. */
  function FirstCall(plan: seq<Batch>, size: BatchSize): Batch
    requires plan != [] && plan[0].quantity > 0
  {
    Split(plan[0], size)[0]
  }

  lemma SentFirst(p: Progress, a: Attempt, calls: seq<Batch>)
    requires p.ok && calls != [] && forall n :: a.outcomes(n) == Works
    ensures Sending(p, a, calls, 0).chain.minted != p.chain.minted
            <==> Sendable(a, calls[0]) && CanMint(p.chain, Sent(a, calls[0]))
  {
    hide Sending, Mint, CanMint, Tickets;
    var next := CallOnce(p.chain, p.rows, a, calls[0], a.outcomes(0));
    SendingOne(p, a, calls);
    if next.ok {
      MintGrows(p.chain, a, calls[0]);
      var k := SendingMintsPrefix(next, a, calls[1..], 1);
      assert |Batches(Sending(p, a, calls, 0).chain.minted)| > |p.chain.minted|;
    } else {
      SendingStops(next, a, calls[1..], 1);
    }
  }

  lemma SendingStops(p: Progress, a: Attempt, calls: seq<Batch>, n: nat)
    requires !p.ok
    ensures Sending(p, a, calls, n) == p
  {
  }

  lemma SendingOne(p: Progress, a: Attempt, calls: seq<Batch>)
    requires p.ok && calls != []
    ensures Sending(p, a, calls, 0) == Sending(CallOnce(p.chain, p.rows, a, calls[0], a.outcomes(0)), a, calls[1..], 1)
  {
  }

  /**
   * Without faults an attempt fails with some tickets minted, which leaves the
   * event short for good, exactly if it is not refused beforehand, its first
   * call goes through, and the contract does not take the whole plan.
   */
  lemma FaultFreeMintStrandsIff(w: World, a: Attempt)
    requires FundRule(w.chain) && w.chain.minted == [] && w.chain.status == OnFunded
    requires a.seen != Ticketing && a.seen != Completed && a.inWindow
    requires forall n :: a.outcomes(n) == Works
    requires BuildTicketMintPlan(a.event, a.request).Ok?
    ensures var plan := BuildTicketMintPlan(a.event, a.request).value;
            !AfterAttempt(w, a).1 && AfterAttempt(w, a).0.chain.minted != []
            <==> && !Refused(a, plan) && Sendable(a, FirstCall(plan, a.size))
                 && CanMint(w.chain, Sent(a, FirstCall(plan, a.size)))
                 && !(PlannedTotal(a) <= w.chain.maxTickets && forall b :: b in plan ==> Acceptable(w.chain, a, b))
  {
    hide Tickets, BuildTicketMintPlan, Sending, Calls, CanMint, Sendable, Acceptable;
    var plan := BuildTicketMintPlan(a.event, a.request).value;
    var calls := Calls(plan, a.size);
    FaultFreeMintSucceedsIff(w, a);
    FirstOfCalls(plan, a.size);
    SentFirst(Progress(w.chain, w.rows, true), a, calls);
  }

  lemma FirstOfCalls(plan: seq<Batch>, size: BatchSize)
    requires plan != [] && plan[0].quantity > 0
    ensures Calls(plan, size) != [] && Calls(plan, size)[0] == FirstCall(plan, size)
  {
  }

  /**
   * A contract object that has only the plain call, but whose runner sends
   * transactions, lets a plan with mixed prices through: the entry at the
   * event's own price is minted, the next one fails, and every later attempt
   * reports success.
   */
  lemma MixedPricesStrandEvent(w: World, a: Attempt, x: Batch, y: Batch, later: seq<Attempt>, again: Attempt)
    requires FundRule(w.chain) && w.chain.minted == [] && w.chain.status == OnFunded
    requires a.seen != Ticketing && a.seen != Completed && a.inWindow && a.signer == PlainWithRunner
    requires BuildTicketMintPlan(a.event, a.request) == Ok([x, y]) && forall n :: a.outcomes(n) == Works
    requires x.price == BasePrice(a.event) != y.price && 0 < x.quantity <= a.size && 0 < y.quantity <= a.size
    requires x.quantity + y.quantity <= w.chain.maxTickets && w.chain.ticketPrice > 0 && x.ticketType <= 3
    requires again.inWindow && again.seen == Funded
    ensures var w' := Run(AfterAttempt(w, a).0, later);
            && !AfterAttempt(w, a).1 && AfterAttempt(w, a).0.chain.minted != [] && AfterAttempt(w', again).1
            && |MintedTickets(w'.chain)| == x.quantity < PlannedTotal(a) == x.quantity + y.quantity
  {
    hide Tickets, BuildTicketMintPlan, Run, FirstCall, Calls, Sending;
    var p := Progress(w.chain, w.rows, true);
    TwoCalls(x, y, a.size);
    NoTickets();
    SendTwo(p, a, x, y);
    PartialMintIsNeverCompleted(w, a, later, again);
    TwoBatches(x, y);
  }

  lemma TwoCalls(x: Batch, y: Batch, size: BatchSize)
    requires 0 < x.quantity <= size && 0 < y.quantity <= size
    ensures Calls([x, y], size) == [x, y]
  {
    assert Split(x, size) == [x] by {
      assert Split(x.(quantity := 0), size) == [] && [x] + [] == [x];
    }
    assert Split(y, size) == [y] by {
      assert Split(y.(quantity := 0), size) == [] && [y] + [] == [y];
    }
    assert [x, y][1..] == [y] && [y][1..] == [];
    assert Calls([], size) == [] && Calls([y], size) == [y] + [];
  }

  lemma TwoBatches(x: Batch, y: Batch)
    ensures |Tickets([x, y])| == x.quantity + y.quantity
  {
    TicketsAppend([], x);
    TicketsAppend([x], y);
    NoTickets();
    assert [] + [x] == [x] && [x] + [y] == [x, y];
  }

  lemma SendTwo(p: Progress, a: Attempt, x: Batch, y: Batch)
    requires p.ok && p.chain.minted == [] && a.outcomes(0) == Works && a.signer != Priced
    requires Sendable(a, x) && !Sendable(a, y) && CanMint(p.chain, Sent(a, x))
    ensures var r := Sending(p, a, [x, y], 0);
            !r.ok && r.chain.minted != [] && |MintedTickets(r.chain)| == x.quantity
  {
    hide Tickets, CanMint, Sendable;
    MintGrows(p.chain, a, x);
    NoTickets();
    var next := CallOnce(p.chain, p.rows, a, x, a.outcomes(0));
    assert next.ok && next.chain == Mint(p.chain, Sent(a, x));
    var last := CallOnce(next.chain, next.rows, a, y, a.outcomes(1));
    assert !last.ok && last.chain == next.chain;
    assert [x, y][1..] == [y];
    SendingOne(p, a, [x, y]);
    assert Sending(next, a, [y], 1) == last by {
      assert [y][1..] == [];
    }
    assert Batches(p.chain.minted) == [];
  }

  lemma {:induction false} CallsCoverPlan(plan: seq<Batch>, size: nat)
    requires size > 0 && forall b :: b in plan ==> b.quantity > 0
    ensures forall b :: b in plan ==>
              exists c :: c in Calls(plan, size) && c.ticketType == b.ticketType && c.price == b.price
    ensures plan != [] ==> Calls(plan, size) != []
  {
    if plan != [] {
      CallsCoverPlan(plan[1..], size);
      assert Split(plan[0], size)[0] in Calls(plan, size);
      assert forall b :: b in plan ==> b == plan[0] || b in plan[1..];
    }
  }

  // ---- the ticket rows ----

  /** Every token of a minted batch has its row; a row made for it carries its price. */
  ghost predicate InDatabase(was: map<nat, TicketRow>, rows: map<nat, TicketRow>, m: Minted)
  {
    forall id: nat :: m.first <= id < m.first + m.batch.quantity ==>
      id in rows && rows[id].ticketType == m.batch.ticketType && (id !in was ==> rows[id].price == m.batch.price)
  }

  /** Token ids are handed out upwards, and rows beyond the last one are untouched. */
  ghost predicate UpTo(was: map<nat, TicketRow>, rows: map<nat, TicketRow>, c: Chain)
  {
    && (forall m :: m in c.minted ==> m.first + m.batch.quantity <= c.nextId)
    && (forall id: nat :: id >= c.nextId ==> (id in rows <==> id in was))
    && was.Keys <= rows.Keys
  }

  lemma {:induction false} RecordedRange(rows: map<nat, TicketRow>, first: nat, n: nat, b: Batch)
    ensures var r := Recorded(rows, first, n, b);
            && (forall id: nat :: first <= id < first + n ==>
                  id in r && r[id].ticketType == b.ticketType && (id !in rows ==> r[id].price == b.price))
            && (forall id: nat :: !(first <= id < first + n) ==>
                  (id in r <==> id in rows) && (id in r ==> r[id] == rows[id]))
            && rows.Keys <= r.Keys
  {
    if n > 0 {
      RecordedRange(rows, first, n - 1, b);
    }
  }

  ghost predicate AllInDatabase(was: map<nat, TicketRow>, rows: map<nat, TicketRow>, c: Chain)
  {
    UpTo(was, rows, c) && forall m :: m in c.minted ==> InDatabase(was, rows, m)
  }

  lemma RecordingKeeps(was: map<nat, TicketRow>, rows: map<nat, TicketRow>, c: Chain, b: Batch)
    requires AllInDatabase(was, rows, c) && CanMint(c, b)
    ensures AllInDatabase(was, Recorded(rows, c.nextId, b.quantity, Effective(c, b)), Mint(c, b))
  {
    hide CanMint, Recorded;
    var batch := Effective(c, b);
    var latest := Minted(c.nextId, batch);
    var r := Recorded(rows, c.nextId, b.quantity, batch);
    RecordedRange(rows, c.nextId, b.quantity, batch);
    assert InDatabase(was, r, latest);
    forall m | m in c.minted
      ensures InDatabase(was, r, m)
    {
      assert InDatabase(was, rows, m);
    }
  }

  lemma {:induction false} SendingRecords(was: map<nat, TicketRow>, p: Progress, a: Attempt, calls: seq<Batch>, n: nat)
    requires Sending(p, a, calls, n).ok
    requires AllInDatabase(was, p.rows, p.chain)
    ensures AllInDatabase(was, Sending(p, a, calls, n).rows, Sending(p, a, calls, n).chain)
    decreases |calls|
  {
    hide AllInDatabase, CanMint, Recorded, Mint;
    if calls != [] {
      var next := CallOnce(p.chain, p.rows, a, calls[0], a.outcomes(n));
      assert next.ok;
      RecordingKeeps(was, p.rows, p.chain, Sent(a, calls[0]));
      SendingRecords(was, next, a, calls[1..], n + 1);
    }
  }

  /** A successful transition leaves no minted ticket without its row. */
  lemma SuccessRecordsEveryTicket(w: World, a: Attempt)
    requires w.chain.minted == [] && w.chain.status != OnTicketing && a.seen != Ticketing && AfterAttempt(w, a).1
    ensures var w' := AfterAttempt(w, a).0;
            && w'.status == Ticketing && |MintedTickets(w'.chain)| == PlannedTotal(a)
            && forall m :: m in w'.chain.minted ==> InDatabase(w.rows, w'.rows, m)
  {
    hide Tickets, AfterAttempt, BuildTicketMintPlan;
    var from := AttemptCases(w, a);
    var calls, k := MintPartMints(from, a);
    assert calls[..k] == calls;
    AsMintedTotal(from.chain, a, calls);
    SendingRecords(w.rows, Progress(from.chain, from.rows, true), a, calls, 0);
  }

  // ---- the status of the event during a transition ----

  /** The world that the lifecycle of the event sees. */
  function Seen(w: World, copy: Option<AppStatus>, loads: map<nat, AppStatus>): Lifecycle.World
  {
    Lifecycle.World(w.status, Some(w.chain.status), copy, loads)
  }

  function MintedOf(w: World, ok: bool): Lifecycle.Minted
  {
    if ok then Lifecycle.AllMinted else if w.chain.minted != [] then Lifecycle.SomeMinted else Lifecycle.NoneMinted
  }

  lemma NothingMintable(p: Progress, a: Attempt, calls: seq<Batch>, n: nat)
    requires p.ok && calls != [] && p.chain.status != OnFunded && p.chain.status != OnTicketing
    ensures Sending(p, a, calls, n) == Progress(p.chain, p.rows, false)
  {
    hide Tickets, Effective;
    SendingStep(p, a, calls, n);
    SendingStopped(CallOnce(p.chain, p.rows, a, calls[0], a.outcomes(n)), a, calls[1..], n + 1);
  }

  /** What the mint part does to the status, of the event and of the chain. */
  lemma MintPartMoves(w: World, a: Attempt)
    requires w.chain.minted == [] && w.chain.status != OnTicketing && w.chain.status != OnFunding
    ensures var w', ok := MintPart(w, a).0, MintPart(w, a).1;
            && w'.status == (if ok then Ticketing else w.status)
            && w'.chain.status == (if w'.chain.minted != [] then OnTicketing else w.chain.status)
            && (ok ==> w'.chain.minted != []) && (w'.chain.minted != [] ==> w.chain.status == OnFunded)
  {
    hide Tickets, BuildTicketMintPlan, Sending, AsMinted, Batches;
    var calls, k := MintPartMints(w, a);
    var r := BuildTicketMintPlan(a.event, a.request);
    if r.Ok? {
      PlanHasCalls(a);
      if w.chain.status != OnFunded {
        NothingMintable(Progress(w.chain, w.rows, true), a, calls, 0);
      }
    }
    if k > 0 {
      var c := MintPart(w, a).0.chain;
      assert |AsMinted(w.chain, a, calls[..k])| == k;
      assert |Batches(c.minted)| == |c.minted|;
    }
  }

  lemma PlanHasCalls(a: Attempt)
    requires BuildTicketMintPlan(a.event, a.request).Ok?
    ensures Calls(BuildTicketMintPlan(a.event, a.request).value, a.size) != []
  {
    CallsCoverPlan(BuildTicketMintPlan(a.event, a.request).value, a.size);
  }

  /**
   * The lifecycle's transition to ticketing is this one, seen from the status:
   * for the same cached read, window and finalisation it leaves the same status
   * in the database and on the chain.
   */
  lemma AttemptIsTransition(w: World, a: Attempt, copy: Option<AppStatus>, loads: map<nat, AppStatus>,
          env: Lifecycle.Env)
    requires Started(w.chain) && env.callsWork && env.inWindow == a.inWindow
    requires Lifecycle.SeenStatus(Seen(w, copy, loads), env.redis) == a.seen
    requires env.afterDeadline == a.finalize.FinalizeCancels?
    requires a.finalize.FinalizeCancels? ==> env.reported == a.finalize.reported
    requires env.minted == MintedOf(AfterAttempt(w, a).0, AfterAttempt(w, a).1)
    ensures var v := Lifecycle.UpdateToTicketing(Seen(w, copy, loads), env);
            v.db == AfterAttempt(w, a).0.status && v.chain == Some(AfterAttempt(w, a).0.chain.status)
  {
    hide MintPart;
    var from := if a.seen == Funded then w else w.(status := Funded);
    if w.chain.status != OnTicketing && w.chain.status != OnFunding {
      MintPartMoves(from, a);
    }
  }
}
