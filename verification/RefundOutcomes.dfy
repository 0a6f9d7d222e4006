/** What a sweep leaves in the database and in its counters, told by the chain before and after it. */
module RefundOutcomes {
  import opened Options
  import opened RefundSweep
  import opened RefundLaws

  function Where(ids: seq<nat>, P: nat -> bool): set<nat>
  {
    set t | t in ids && P(t)
  }

  /** One more token, if the earlier ones stay. */
  lemma WhereGrows(ids: seq<nat>, t: nat, P: nat -> bool, Q: nat -> bool)
    requires t !in ids && forall x :: x in ids ==> (P(x) <==> Q(x))
    ensures |Where(ids + [t], Q)| == |Where(ids, P)| + if Q(t) then 1 else 0
  {
    assert t !in Where(ids, P);
    assert Where(ids + [t], Q) == Where(ids, P) + if Q(t) then {t} else {};
  }

  // ---- phase two: ticket rows ----

  /** The sweep saw the token refunded, or learned that its own refund went through, and could write that down. */
  predicate Recorded(c: Chain, d: Chain, blocked: set<nat>, f: Faults, t: nat)
  {
    && t !in blocked && !f.readFails && !f.syncFails
    && Raw(d, t) == Refunded && (Raw(c, t) == Refunded || f.refund == Works)
  }

  predicate SameToken(s: Refunding, r: Refunding, t: nat)
  {
    && Raw(r.chain, t) == Raw(s.chain, t)
    && (t in r.db.tickets <==> t in s.db.tickets)
    && (t in s.db.tickets ==> r.db.tickets[t] == s.db.tickets[t])
  }

  lemma OtherTokens(s: Refunding, t: nat, blocked: set<nat>, f: Faults, other: nat)
    requires other != t
    ensures SameToken(s, RefundOne(s, t, blocked, f), other)
  {
  }

  lemma SameForAll(s: Refunding, t: nat, blocked: set<nat>, f: Faults)
    ensures var r := RefundOne(s, t, blocked, f);
            r.chain.ended == s.chain.ended && r.db.listings == s.db.listings
  {
  }

  lemma {:induction false} UntouchedToken(s: Refunding, ids: seq<nat>, blocked: set<nat>, faults: nat -> Faults, t: nat)
    requires t !in ids
    ensures SameToken(s, RefundAll(s, ids, blocked, faults), t)
  {
    hide RefundOne;
    if ids != [] {
      var n := |ids| - 1;
      assert ids == ids[..n] + [ids[n]];
      UntouchedToken(s, ids[..n], blocked, faults, t);
      OtherTokens(RefundAll(s, ids[..n], blocked, faults), ids[n], blocked, faults(ids[n]), t);
    }
  }

  lemma OwnRow(s: Refunding, t: nat, blocked: set<nat>, f: Faults)
    requires t in s.db.tickets
    ensures var r := RefundOne(s, t, blocked, f);
            && t in r.db.tickets
            && r.db.tickets[t] == if Recorded(s.chain, r.chain, blocked, f, t)
                                  then s.db.tickets[t].(status := Refunded) else s.db.tickets[t]
  {
  }

  /** The state before the round of a token, as far as the token is concerned, is the first one. */
  lemma {:induction false} RowAfterRefunds(s: Refunding, ids: seq<nat>, blocked: set<nat>,
          faults: nat -> Faults, t: nat)
    requires Distinct(ids) && t in s.db.tickets
    ensures var r := RefundAll(s, ids, blocked, faults);
            && t in r.db.tickets
            && r.db.tickets[t] == if t in ids && Recorded(s.chain, r.chain, blocked, faults(t), t)
                                  then s.db.tickets[t].(status := Refunded) else s.db.tickets[t]
  {
    hide RefundOne;
    if ids != [] {
      var n := |ids| - 1;
      var before := RefundAll(s, ids[..n], blocked, faults);
      assert ids == ids[..n] + [ids[n]];
      if ids[n] == t {
        UntouchedToken(s, ids[..n], blocked, faults, t);
        OwnRow(before, t, blocked, faults(t));
      } else {
        RowAfterRefunds(s, ids[..n], blocked, faults, t);
        OtherTokens(before, ids[n], blocked, faults(ids[n]), t);
      }
    }
  }

  lemma {:induction false} ListingsKept(s: Refunding, ids: seq<nat>, blocked: set<nat>, faults: nat -> Faults)
    ensures RefundAll(s, ids, blocked, faults).db.listings == s.db.listings
    ensures RefundAll(s, ids, blocked, faults).db.tickets.Keys == s.db.tickets.Keys
    ensures RefundAll(s, ids, blocked, faults).chain.ended == s.chain.ended
  {
    hide RefundOne;
    if ids != [] {
      var before, t := RefundAll(s, ids[..|ids| - 1], blocked, faults), ids[|ids| - 1];
      ListingsKept(s, ids[..|ids| - 1], blocked, faults);
      SameForAll(before, t, blocked, faults(t));
      SameRows(before, t, blocked, faults(t));
    }
  }

  lemma SameRows(s: Refunding, t: nat, blocked: set<nat>, f: Faults)
    ensures RefundOne(s, t, blocked, f).db.tickets.Keys == s.db.tickets.Keys
  {
  }

  // ---- phase two: counters ----

  datatype Outcome = PaidAndLearned | AlreadyRefunded | Skipped | Failed

  /** What a sweep that found one chain and left another counts a token as. */
  predicate Counts(o: Outcome, c: Chain, d: Chain, blocked: set<nat>, f: Faults, t: nat)
  {
    match o
    case PaidAndLearned => Raw(c, t) != Refunded && Raw(d, t) == Refunded && f.refund == Works
    case AlreadyRefunded => t !in blocked && !f.readFails && Raw(c, t) == Refunded
    case Skipped => t in blocked || (!f.readFails && Raw(c, t) != Refunded && (Raw(c, t) != Sold || c.ended))
    case Failed =>
      && t !in blocked
      && (f.readFails || (Raw(c, t) == Sold && !c.ended && !(Raw(d, t) == Refunded && f.refund == Works)))
  }

  function Those(o: Outcome, ids: seq<nat>, c: Chain, d: Chain, blocked: set<nat>, faults: nat -> Faults): set<nat>
  {
    Where(ids, (t: nat) => Counts(o, c, d, blocked, faults(t), t))
  }

  function Counter(r: Refunding, o: Outcome): nat
  {
    match o
    case PaidAndLearned => r.refunded
    case AlreadyRefunded => r.alreadyRefunded
    case Skipped => r.skipped
    case Failed => r.failed
  }

  lemma OwnCount(o: Outcome, s: Refunding, t: nat, blocked: set<nat>, f: Faults)
    ensures var r := RefundOne(s, t, blocked, f);
            Counter(r, o) == Counter(s, o) + if Counts(o, s.chain, r.chain, blocked, f, t) then 1 else 0
  {
  }

  lemma SameCount(o: Outcome, c: Chain, c': Chain, d: Chain, d': Chain, blocked: set<nat>, f: Faults, t: nat)
    requires Raw(c, t) == Raw(c', t) && Raw(d, t) == Raw(d', t) && c.ended == c'.ended
    ensures Counts(o, c, d, blocked, f, t) <==> Counts(o, c', d', blocked, f, t)
  {
  }

  /** One more token, if the later chain does not change how the earlier tokens count. */
  lemma ThoseGrow(o: Outcome, ids: seq<nat>, t: nat, c: Chain, d: Chain, d': Chain, blocked: set<nat>,
                  faults: nat -> Faults)
    requires t !in ids
    requires forall x :: x in ids ==>
               (Counts(o, c, d, blocked, faults(x), x) <==> Counts(o, c, d', blocked, faults(x), x))
    ensures |Those(o, ids + [t], c, d', blocked, faults)|
            == |Those(o, ids, c, d, blocked, faults)| + if Counts(o, c, d', blocked, faults(t), t) then 1 else 0
  {
    hide Counts;
    WhereGrows(ids, t, (x: nat) => Counts(o, c, d, blocked, faults(x), x),
               (x: nat) => Counts(o, c, d', blocked, faults(x), x));
  }

  lemma EarlierCountsStay(o: Outcome, c: Chain, s: Refunding, ids: seq<nat>, t: nat, blocked: set<nat>,
                          faults: nat -> Faults)
    requires t !in ids
    ensures var d, d' := s.chain, RefundOne(s, t, blocked, faults(t)).chain;
            forall x :: x in ids ==>
              (Counts(o, c, d, blocked, faults(x), x) <==> Counts(o, c, d', blocked, faults(x), x))
  {
    hide RefundOne, Counts, Raw;
    var r := RefundOne(s, t, blocked, faults(t));
    forall x | x in ids
      ensures Counts(o, c, s.chain, blocked, faults(x), x) <==> Counts(o, c, r.chain, blocked, faults(x), x)
    {
      OtherTokens(s, t, blocked, faults(t), x);
      SameCount(o, c, c, s.chain, r.chain, blocked, faults(x), x);
    }
  }

  lemma {:induction false} CountersAreSizes(o: Outcome, s: Refunding, ids: seq<nat>, blocked: set<nat>,
                                            faults: nat -> Faults)
    requires Distinct(ids)
    ensures var r := RefundAll(s, ids, blocked, faults);
            Counter(r, o) == Counter(s, o) + |Those(o, ids, s.chain, r.chain, blocked, faults)|
  {
    hide RefundOne, Counts, Raw, Counter;
    if ids == [] {
      assert Those(o, ids, s.chain, s.chain, blocked, faults) == {};
    } else {
      hide Those;
      var n := |ids| - 1;
      var before, t := RefundAll(s, ids[..n], blocked, faults), ids[n];
      assert ids == ids[..n] + [t];
      CountersAreSizes(o, s, ids[..n], blocked, faults);
      OwnCount(o, before, t, blocked, faults(t));
      UntouchedToken(s, ids[..n], blocked, faults, t);
      ListingsKept(s, ids[..n], blocked, faults);
      var r := RefundOne(before, t, blocked, faults(t));
      SameCount(o, s.chain, before.chain, r.chain, r.chain, blocked, faults(t), t);
      EarlierCountsStay(o, s.chain, before, ids[..n], t, blocked, faults);
      ThoseGrow(o, ids[..n], t, s.chain, before.chain, r.chain, blocked, faults);
    }
  }

  // ---- phase one: the cancelled listings ----

  /** The sweep cancelled the token's listing and learned of it. */
  predicate Unlisted(c: Chain, d: Chain, f: Faults, t: nat)
  {
    t in c.listing && t !in d.listing && f.cancel == Works
  }

  /** The owner of a token taken off the market. */
  function SellerOf(c: Chain, t: nat): string
    requires t in c.listing
  {
    if c.listing[t] in c.seller then c.seller[c.listing[t]] else ""
  }

  predicate SameListing(s: Cancelling, r: Cancelling, t: nat)
  {
    && (t in r.chain.listing <==> t in s.chain.listing)
    && (t in s.chain.listing ==> r.chain.listing[t] == s.chain.listing[t])
    && (t in r.blocked <==> t in s.blocked)
    && (t in r.db.tickets <==> t in s.db.tickets)
    && (t in s.db.tickets ==> r.db.tickets[t] == s.db.tickets[t])
  }

  /** Nothing else on the chain moves. */
  predicate OnlyListings(s: Cancelling, r: Cancelling)
  {
    r.chain == s.chain.(listing := r.chain.listing) && r.db.tickets.Keys == s.db.tickets.Keys
  }

  lemma OtherListings(s: Cancelling, t: nat, f: Faults, other: nat)
    requires other != t
    ensures SameListing(s, CancelOne(s, t, f), other) && OnlyListings(s, CancelOne(s, t, f))
  {
  }

  lemma OnlyListingsMove(s: Cancelling, t: nat, f: Faults)
    ensures OnlyListings(s, CancelOne(s, t, f))
  {
  }

  lemma {:induction false} UnvisitedListing(s: Cancelling, ids: seq<nat>, faults: nat -> Faults, t: nat)
    ensures OnlyListings(s, CancelAll(s, ids, faults))
    ensures t !in ids ==> SameListing(s, CancelAll(s, ids, faults), t)
  {
    hide CancelOne;
    if ids != [] {
      var n := |ids| - 1;
      assert ids == ids[..n] + [ids[n]];
      UnvisitedListing(s, ids[..n], faults, t);
      OnlyListingsMove(CancelAll(s, ids[..n], faults), ids[n], faults(ids[n]));
      if t !in ids {
        OtherListings(CancelAll(s, ids[..n], faults), ids[n], faults(ids[n]), t);
      }
    }
  }

  /** The row, the listing and the block of a token after its round. */
  predicate CancelOutcome(s: Cancelling, r: Cancelling, f: Faults, t: nat)
  {
    var c, d := s.chain, r.chain;
    && (t in c.listing && t !in d.listing
        <==> t in c.listing && !f.inspectFails && !f.loadFails && f.cancel != Fails
             && (Raw(c, t) == Minted || (Raw(c, t) == Sold && !c.ended)))
    && (t in d.listing ==> t in c.listing && d.listing[t] == c.listing[t])
    && (t in r.blocked
        <==> t in s.blocked || f.inspectFails
             || (t in c.listing && !(Unlisted(c, d, f, t)
                                     && !f.loadFails && !f.findFails && !f.ticketWriteFails && !f.listingWriteFails)))
    && (t in s.db.tickets ==>
          && t in r.db.tickets
          && r.db.tickets[t] == if Unlisted(c, d, f, t) && !f.findFails && !f.ticketWriteFails
                                then TicketRow(Sold, SellerOf(c, t), false) else s.db.tickets[t])
  }

  lemma OwnCancel(s: Cancelling, t: nat, f: Faults)
    ensures CancelOutcome(s, CancelOne(s, t, f), f, t)
  {
  }

  lemma SameStart(s: Cancelling, s': Cancelling, r: Cancelling, f: Faults, t: nat)
    requires SameListing(s, s', t) && OnlyListings(s, s') && CancelOutcome(s', r, f, t)
    ensures CancelOutcome(s, r, f, t)
  {
  }

  lemma SameFinish(s: Cancelling, r: Cancelling, r': Cancelling, f: Faults, t: nat)
    requires CancelOutcome(s, r, f, t) && SameListing(r, r', t)
    ensures CancelOutcome(s, r', f, t)
  {
  }

  lemma {:induction false} RowAfterCancels(s: Cancelling, ids: seq<nat>, faults: nat -> Faults, t: nat)
    requires Distinct(ids) && t in ids
    ensures CancelOutcome(s, CancelAll(s, ids, faults), faults(t), t)
  {
    hide CancelOne, CancelOutcome, SameListing, OnlyListings;
    var n := |ids| - 1;
    var before := CancelAll(s, ids[..n], faults);
    assert ids == ids[..n] + [ids[n]];
    if ids[n] == t {
      UnvisitedListing(s, ids[..n], faults, t);
      OwnCancel(before, t, faults(t));
      SameStart(s, before, CancelAll(s, ids, faults), faults(t), t);
    } else {
      RowAfterCancels(s, ids[..n], faults, t);
      OtherListings(before, ids[n], faults(ids[n]), t);
      SameFinish(s, before, CancelAll(s, ids, faults), faults(t), t);
    }
  }

  // ---- phase one: counters ----

  datatype ListingCounter = Inspected | Cancelled | Missed

  predicate CountsListing(o: ListingCounter, c: Chain, r: Cancelling, f: Faults, t: nat)
  {
    match o
    case Inspected => t in c.listing && !f.inspectFails
    case Cancelled => Unlisted(c, r.chain, f, t)
    case Missed => t in r.blocked
  }

  function ListingCount(r: Cancelling, o: ListingCounter): nat
  {
    match o
    case Inspected => r.inspected
    case Cancelled => r.cancelled
    case Missed => r.failed
  }

  lemma OwnListingCount(o: ListingCounter, s: Cancelling, t: nat, f: Faults)
    requires t !in s.blocked
    ensures var r := CancelOne(s, t, f);
            ListingCount(r, o) == ListingCount(s, o) + if CountsListing(o, s.chain, r, f, t) then 1 else 0
  {
  }

  lemma SameListingCount(o: ListingCounter, c: Chain, s: Cancelling, r: Cancelling, f: Faults, t: nat)
    requires SameListing(s, r, t)
    ensures CountsListing(o, c, s, f, t) <==> CountsListing(o, c, r, f, t)
    ensures CountsListing(o, s.chain, r, f, t) <==> CountsListing(o, r.chain, r, f, t)
  {
  }

  lemma EarlierListingCountsStay(o: ListingCounter, c: Chain, s: Cancelling, ids: seq<nat>, t: nat,
                                 faults: nat -> Faults)
    requires t !in ids
    ensures var r := CancelOne(s, t, faults(t));
            forall x :: x in ids ==> (CountsListing(o, c, s, faults(x), x) <==> CountsListing(o, c, r, faults(x), x))
  {
    hide CancelOne, CountsListing, SameListing;
    var r := CancelOne(s, t, faults(t));
    forall x | x in ids
      ensures CountsListing(o, c, s, faults(x), x) <==> CountsListing(o, c, r, faults(x), x)
    {
      OtherListings(s, t, faults(t), x);
      SameListingCount(o, c, s, r, faults(x), x);
    }
  }

  lemma {:induction false} ListingCountersAreSizes(o: ListingCounter, s: Cancelling, ids: seq<nat>,
                                                   faults: nat -> Faults)
    requires Distinct(ids) && forall t :: t in ids ==> t !in s.blocked
    ensures var r := CancelAll(s, ids, faults);
            ListingCount(r, o)
            == ListingCount(s, o) + |Where(ids, (t: nat) => CountsListing(o, s.chain, r, faults(t), t))|
  {
    hide CancelOne, CountsListing, ListingCount, SameListing, OnlyListings;
    if ids == [] {
      assert Where(ids, (t: nat) => CountsListing(o, s.chain, s, faults(t), t)) == {};
    } else {
      hide Where;
      var n := |ids| - 1;
      var before, t := CancelAll(s, ids[..n], faults), ids[n];
      assert ids == ids[..n] + [t];
      ListingCountersAreSizes(o, s, ids[..n], faults);
      UnvisitedListing(s, ids[..n], faults, t);
      NotVisited(s, ids[..n], faults, t);
      var r := CancelOne(before, t, faults(t));
      OwnListingCount(o, before, t, faults(t));
      OwnStart(o, s, before, r, faults(t), t);
      EarlierListingCountsStay(o, s.chain, before, ids[..n], t, faults);
      WhereGrows(ids[..n], t, (x: nat) => CountsListing(o, s.chain, before, faults(x), x),
                 (x: nat) => CountsListing(o, s.chain, r, faults(x), x));
    }
  }

  lemma OwnStart(o: ListingCounter, s: Cancelling, s': Cancelling, r: Cancelling, f: Faults, t: nat)
    requires SameListing(s, s', t)
    ensures CountsListing(o, s.chain, r, f, t) <==> CountsListing(o, s'.chain, r, f, t)
  {
  }

  // ---- phase one: listing rows ----

  /** The newest row that names the listing or is an active one of the token. */
  predicate Newest(rows: seq<ListingRow>, listing: nat, t: nat, k: nat)
  {
    && k < |rows| && (rows[k].listing == Some(listing) || (rows[k].token == t && rows[k].active))
    && forall j :: k < j < |rows| ==> rows[j].listing != Some(listing) && !(rows[j].token == t && rows[j].active)
  }

  /** Rows are only ever closed. */
  predicate OnlyCloses(rows: seq<ListingRow>, after: seq<ListingRow>)
  {
    |after| == |rows| && forall k :: 0 <= k < |rows| ==> after[k] == rows[k] || after[k] == rows[k].(active := false)
  }

  /** A row that was closed belonged to a listing that the sweep cancelled. */
  predicate ClosedFor(c: Chain, r: Cancelling, row: ListingRow, t: nat, f: Faults)
  {
    Unlisted(c, r.chain, f, t) && !f.findFails && !f.listingWriteFails
    && (row.listing == Some(c.listing[t]) || (row.token == t && row.active))
  }

  lemma RowsOfOne(s: Cancelling, t: nat, f: Faults)
    ensures var r := CancelOne(s, t, f);
            && OnlyCloses(s.db.listings, r.db.listings)
            && forall k :: 0 <= k < |s.db.listings| && r.db.listings[k] != s.db.listings[k] ==>
                 ClosedFor(s.chain, r, s.db.listings[k], t, f)
  {
  }

  lemma NewestIsClosed(s: Cancelling, t: nat, f: Faults, rows: seq<ListingRow>, k: nat)
    requires t in s.chain.listing && Newest(rows, s.chain.listing[t], t, k) && OnlyCloses(rows, s.db.listings)
    requires var r := CancelOne(s, t, f);
             Unlisted(s.chain, r.chain, f, t) && !f.findFails && !f.listingWriteFails
    ensures var r := CancelOne(s, t, f);
            k < |r.db.listings| && !r.db.listings[k].active
  {
    var listing := s.chain.listing[t];
    var found := FindRow(s.db.listings, listing, t);
    if s.db.listings[k].active {
      assert RowOf(s.db.listings[k], listing, t);
      assert found == Some(k);
    }
  }

  lemma ClosingTwice(a: seq<ListingRow>, b: seq<ListingRow>, c: seq<ListingRow>)
    requires OnlyCloses(a, b) && OnlyCloses(b, c)
    ensures OnlyCloses(a, c)
  {
  }

  lemma {:induction false} RowsOnlyClose(s: Cancelling, ids: seq<nat>, faults: nat -> Faults)
    ensures OnlyCloses(s.db.listings, CancelAll(s, ids, faults).db.listings)
  {
    hide CancelOne, OnlyCloses;
    if ids == [] {
      SameRowsClose(s.db.listings);
    } else {
      var n := |ids| - 1;
      RowsOnlyClose(s, ids[..n], faults);
      var before := CancelAll(s, ids[..n], faults);
      RowsOfOne(before, ids[n], faults(ids[n]));
      ClosingTwice(s.db.listings, before.db.listings, CancelAll(s, ids, faults).db.listings);
    }
  }

  lemma SameRowsClose(rows: seq<ListingRow>)
    ensures OnlyCloses(rows, rows)
  {
  }

  /** The newest row of every listing that was cancelled without a fault is closed in the end. */
  lemma {:induction false} CancelledRowIsClosed(s: Cancelling, ids: seq<nat>, faults: nat -> Faults, t: nat, k: nat)
    requires Distinct(ids) && t in ids && t in s.chain.listing && Newest(s.db.listings, s.chain.listing[t], t, k)
    requires Unlisted(s.chain, CancelAll(s, ids, faults).chain, faults(t), t)
    requires !faults(t).findFails && !faults(t).listingWriteFails
    ensures var rows := CancelAll(s, ids, faults).db.listings;
            k < |rows| && !rows[k].active
  {
    hide CancelOne, Newest;
    var n := |ids| - 1;
    assert ids == ids[..n] + [ids[n]];
    var before := CancelAll(s, ids[..n], faults);
    RowsOnlyClose(s, ids[..n], faults);
    if ids[n] == t {
      UnvisitedListing(s, ids[..n], faults, t);
      NewestIsClosed(before, t, faults(t), s.db.listings, k);
    } else {
      OtherListings(before, ids[n], faults(ids[n]), t);
      CancelledRowIsClosed(s, ids[..n], faults, t, k);
      RowsOfOne(before, ids[n], faults(ids[n]));
    }
  }

  ghost predicate ClosedForSome(c: Chain, r: Cancelling, row: ListingRow, ids: seq<nat>, faults: nat -> Faults)
  {
    exists t :: t in ids && ClosedFor(c, r, row, t, faults(t))
  }

  lemma {:induction false} ClosedForCause(s: Cancelling, ids: seq<nat>, faults: nat -> Faults, k: nat)
    requires k < |s.db.listings|
    ensures var r := CancelAll(s, ids, faults);
            && k < |r.db.listings|
            && (r.db.listings[k] != s.db.listings[k] ==> ClosedForSome(s.chain, r, s.db.listings[k], ids, faults))
  {
    hide CancelOne;
    RowsOnlyClose(s, ids, faults);
    if ids != [] {
      var n := |ids| - 1;
      var before, r, t := CancelAll(s, ids[..n], faults), CancelAll(s, ids, faults), ids[n];
      assert ids == ids[..n] + [t];
      ClosedForCause(s, ids[..n], faults, k);
      RowsOnlyClose(s, ids[..n], faults);
      CancellingIsSafe(s, ids[..n], faults);
      CancelOneEffects(before, t, faults(t));
      RowsOfOne(before, t, faults(t));
      if before.db.listings[k] != s.db.listings[k] {
        var x :| x in ids[..n] && ClosedFor(s.chain, before, s.db.listings[k], x, faults(x));
        assert ClosedFor(s.chain, r, s.db.listings[k], x, faults(x));
      } else if r.db.listings[k] != before.db.listings[k] {
        ListingsKeepIds(s, ids[..n], faults, t);
        assert ClosedFor(s.chain, r, s.db.listings[k], t, faults(t));
      }
    }
  }

  lemma {:induction false} ListingsKeepIds(s: Cancelling, ids: seq<nat>, faults: nat -> Faults, t: nat)
    ensures var d := CancelAll(s, ids, faults).chain;
            t in d.listing ==> t in s.chain.listing && d.listing[t] == s.chain.listing[t]
  {
    hide CancelOne;
    if ids != [] {
      var n := |ids| - 1;
      ListingsKeepIds(s, ids[..n], faults, t);
      CancelOneEffects(CancelAll(s, ids[..n], faults), ids[n], faults(ids[n]));
    }
  }

  // ---- the whole sweep ----

  /** A ticket row after the first phase, told by the listing before and after it. */
  function Relisted(c: Chain, db: Db, p: Cancelling, f: Faults, t: nat): TicketRow
    requires t in db.tickets
  {
    if Unlisted(c, p.chain, f, t) && !f.findFails && !f.ticketWriteFails then TicketRow(Sold, SellerOf(c, t), false)
    else db.tickets[t]
  }

  /**
   * Every ticket row after a sweep: marked as refunded exactly if the sweep
   * learned of the refund; before that, taken back from the market if its
   * listing was cancelled; otherwise as it was.
   */
  lemma RowsTellRefunds(c: Chain, db: Db, ids: seq<nat>, faults: nat -> Faults, t: nat)
    requires Distinct(ids) && t in db.tickets
    ensures var p, r := Phase1(c, db, ids, faults), Sweep(c, db, ids, faults);
            && r.db.tickets.Keys == db.tickets.Keys
            && r.db.tickets[t] ==
               if t !in ids then db.tickets[t]
               else if Recorded(c, r.chain, p.blocked, faults(t), t)
               then Relisted(c, db, p, faults(t), t).(status := Refunded)
               else Relisted(c, db, p, faults(t), t)
  {
    hide CancelAll, RefundAll;
    var s, p := Cancelling(c, db, 0, 0, 0, {}), Phase1(c, db, ids, faults);
    var s2 := Refunding(p.chain, p.db, 0, 0, 0, 0, 0);
    UnvisitedListing(s, ids, faults, t);
    if t in ids {
      RowAfterCancels(s, ids, faults, t);
    }
    RowAfterRefunds(s2, ids, p.blocked, faults, t);
    ListingsKept(s2, ids, p.blocked, faults);
  }

  /** Whose refund is blocked, and whose listing is cancelled. */
  lemma BlockedIff(c: Chain, db: Db, ids: seq<nat>, faults: nat -> Faults, t: nat)
    requires Distinct(ids)
    ensures var p, f := Phase1(c, db, ids, faults), faults(t);
            && (t in p.blocked
                <==> t in ids
                     && (f.inspectFails
                         || (t in c.listing
                             && (f.loadFails || f.findFails || f.ticketWriteFails || f.listingWriteFails
                                 || !Unlisted(c, p.chain, f, t)))))
            && (t in c.listing ==>
                  (t !in p.chain.listing
                   <==> && t in ids && !f.inspectFails && !f.loadFails && f.cancel != Fails
                        && (Raw(c, t) == Minted || (Raw(c, t) == Sold && !c.ended))))
  {
    hide CancelAll;
    var s := Cancelling(c, db, 0, 0, 0, {});
    if t in ids {
      RowAfterCancels(s, ids, faults, t);
    } else {
      UnvisitedListing(s, ids, faults, t);
    }
  }

  /**
   * The counters of a sweep are numbers of tokens: those paid and learned of,
   * those found refunded, those skipped, and those that failed; and of the
   * first phase, those found listed, those unlisted, and those blocked.
   */
  lemma CountersTellOutcomes(c: Chain, db: Db, ids: seq<nat>, faults: nat -> Faults)
    requires Distinct(ids)
    ensures var p, r := Phase1(c, db, ids, faults), Sweep(c, db, ids, faults);
            && r.refunded == |Those(PaidAndLearned, ids, c, r.chain, p.blocked, faults)|
            && r.alreadyRefunded == |Those(AlreadyRefunded, ids, c, r.chain, p.blocked, faults)|
            && r.skipped == |Those(Skipped, ids, c, r.chain, p.blocked, faults)|
            && r.failed == |Those(Failed, ids, c, r.chain, p.blocked, faults)|
            && p.inspected == |Where(ids, (t: nat) => t in c.listing && !faults(t).inspectFails)|
            && p.cancelled == |Where(ids, (t: nat) => Unlisted(c, p.chain, faults(t), t))|
            && p.failed == |p.blocked|
  {
    SweepCounters(c, db, ids, faults);
    ListingCounters(c, db, ids, faults);
  }

  lemma SweepCounters(c: Chain, db: Db, ids: seq<nat>, faults: nat -> Faults)
    requires Distinct(ids)
    ensures var p, r := Phase1(c, db, ids, faults), Sweep(c, db, ids, faults);
            forall o :: Counter(r, o) == |Those(o, ids, c, r.chain, p.blocked, faults)|
  {
    hide CancelAll, RefundAll, Those;
    var s, p := Cancelling(c, db, 0, 0, 0, {}), Phase1(c, db, ids, faults);
    var s2, r := Refunding(p.chain, p.db, 0, 0, 0, 0, 0), Sweep(c, db, ids, faults);
    UnvisitedListing(s, ids, faults, 0);
    forall o: Outcome
      ensures Counter(r, o) == |Those(o, ids, c, r.chain, p.blocked, faults)|
    {
      CountersAreSizes(o, s2, ids, p.blocked, faults);
      SameThose(o, ids, c, p.chain, r.chain, p.blocked, faults);
    }
  }

  lemma SameThose(o: Outcome, ids: seq<nat>, c: Chain, c': Chain, d: Chain, blocked: set<nat>, faults: nat -> Faults)
    requires c'.raw == c.raw && c'.ended == c.ended
    ensures Those(o, ids, c, d, blocked, faults) == Those(o, ids, c', d, blocked, faults)
  {
  }

  lemma ListingCounters(c: Chain, db: Db, ids: seq<nat>, faults: nat -> Faults)
    requires Distinct(ids)
    ensures var p := Phase1(c, db, ids, faults);
            && p.inspected == |Where(ids, (t: nat) => t in c.listing && !faults(t).inspectFails)|
            && p.cancelled == |Where(ids, (t: nat) => Unlisted(c, p.chain, faults(t), t))|
            && p.failed == |p.blocked|
  {
    hide CancelAll;
    var s, p := Cancelling(c, db, 0, 0, 0, {}), Phase1(c, db, ids, faults);
    ListingCountersAreSizes(Inspected, s, ids, faults);
    ListingCountersAreSizes(Cancelled, s, ids, faults);
    ListingCountersAreSizes(Missed, s, ids, faults);
    assert Where(ids, (t: nat) => CountsListing(Inspected, c, p, faults(t), t))
           == Where(ids, (t: nat) => t in c.listing && !faults(t).inspectFails);
    assert Where(ids, (t: nat) => CountsListing(Cancelled, c, p, faults(t), t))
           == Where(ids, (t: nat) => Unlisted(c, p.chain, faults(t), t));
    assert Where(ids, (t: nat) => CountsListing(Missed, c, p, faults(t), t)) == p.blocked by {
      forall t | t in p.blocked
        ensures t in ids
      {
        BlockedIff(c, db, ids, faults, t);
      }
    }
  }

  /**
   * Listing rows after a sweep: only closed, each for a listing that was
   * cancelled, and the newest of each of those.
   */
  lemma ListingRowsTellCancels(c: Chain, db: Db, ids: seq<nat>, faults: nat -> Faults, t: nat, k: nat)
    requires Distinct(ids) && k < |db.listings|
    ensures var p, rows := Phase1(c, db, ids, faults), Sweep(c, db, ids, faults).db.listings;
            && OnlyCloses(db.listings, rows)
            && (rows[k] != db.listings[k] ==> ClosedForSome(c, p, db.listings[k], ids, faults))
            && (t in ids && Unlisted(c, p.chain, faults(t), t) && !faults(t).findFails
                && !faults(t).listingWriteFails ==>
                  Newest(db.listings, c.listing[t], t, k) ==> !rows[k].active)
  {
    hide CancelAll, RefundAll, ClosedForSome, Newest;
    var s, p := Cancelling(c, db, 0, 0, 0, {}), Phase1(c, db, ids, faults);
    ListingsKept(Refunding(p.chain, p.db, 0, 0, 0, 0, 0), ids, p.blocked, faults);
    RowsOnlyClose(s, ids, faults);
    ClosedForCause(s, ids, faults, k);
    if && t in ids && Unlisted(c, p.chain, faults(t), t) && Newest(db.listings, c.listing[t], t, k)
       && !faults(t).findFails && !faults(t).listingWriteFails {
      CancelledRowIsClosed(s, ids, faults, t, k);
    }
  }

  // ---- who is paid ----

  lemma {:induction false} LaterTokensDoNotMatter(s: Refunding, ids: seq<nat>, j: nat, blocked: set<nat>,
                                                  faults: nat -> Faults, t: nat)
    requires Distinct(ids) && j <= |ids| && t in ids[..j]
    ensures SameToken(RefundAll(s, ids[..j], blocked, faults), RefundAll(s, ids, blocked, faults), t)
    decreases |ids|
  {
    hide RefundOne;
    if j < |ids| {
      var n := |ids| - 1;
      assert ids[..n][..j] == ids[..j] && ids == ids[..n] + [ids[n]];
      LaterTokensDoNotMatter(s, ids[..n], j, blocked, faults, t);
      OtherTokens(RefundAll(s, ids[..n], blocked, faults), ids[n], blocked, faults(ids[n]), t);
    } else {
      assert ids[..j] == ids;
    }
  }

  lemma {:induction false} SameOwed(c: Chain, d: Chain, ids: seq<nat>)
    requires forall t :: t in ids ==> Raw(c, t) == Raw(d, t) && Price(c, t) == Price(d, t)
    ensures Owed(c, ids) == Owed(d, ids)
  {
    if ids != [] {
      var n := |ids| - 1;
      assert ids == ids[..n] + [ids[n]] && ids[n] in ids;
      SameOwed(c, d, ids[..n]);
    }
  }

  lemma OwnPayment(s: Refunding, t: nat, blocked: set<nat>, f: Faults)
    requires Raw(s.chain, t) != Refunded
    ensures Raw(RefundOne(s, t, blocked, f).chain, t) == Refunded
            <==> && t !in blocked && !f.readFails && f.refund != Fails && t !in s.chain.listing
                 && Raw(s.chain, t) == Sold && !s.chain.ended && s.chain.refundsEnabled
                 && 0 < Price(s.chain, t) <= s.chain.pool
  {
  }

  /** What the tokens before this one leave in the pool. */
  lemma PoolBefore(s: Refunding, ids: seq<nat>, i: nat, blocked: set<nat>, faults: nat -> Faults)
    requires Distinct(ids) && i < |ids|
    ensures var mid, r := RefundAll(s, ids[..i], blocked, faults), RefundAll(s, ids, blocked, faults);
            mid.chain.pool == s.chain.pool - Owed(s.chain, ids[..i]) + Owed(r.chain, ids[..i])
  {
    hide RefundAll, Owed;
    var mid, r := RefundAll(s, ids[..i], blocked, faults), RefundAll(s, ids, blocked, faults);
    RefundingConserves(s, ids[..i], ids[..i], blocked, faults);
    RefundingConserves(s, ids, ids, blocked, faults);
    forall t | t in ids[..i]
      ensures Raw(mid.chain, t) == Raw(r.chain, t)
    {
      LaterTokensDoNotMatter(s, ids, i, blocked, faults, t);
    }
    SameOwed(mid.chain, r.chain, ids[..i]);
  }

  /**
   * Exactly which tokens are refunded on chain by a sweep: the unblocked sold
   * ones of an event that has not ended, whose price the pool still covers
   * after the tokens before it, unless a call fails.
   */
  lemma PaidIff(c: Chain, db: Db, ids: seq<nat>, faults: nat -> Faults, i: nat)
    requires Distinct(ids) && i < |ids| && Raw(c, ids[i]) != Refunded
    ensures var p, d := Phase1(c, db, ids, faults), Sweep(c, db, ids, faults).chain;
            var t, f := ids[i], faults(ids[i]);
            Raw(d, t) == Refunded
            <==> && t !in p.blocked && !f.readFails && f.refund != Fails
                 && Raw(c, t) == Sold && !c.ended && c.refundsEnabled
                 && 0 < Price(c, t) <= c.pool - Owed(c, ids[..i]) + Owed(d, ids[..i])
  {
    hide CancelAll, RefundAll, RefundOne, Raw, Owed;
    var s, p := Cancelling(c, db, 0, 0, 0, {}), Phase1(c, db, ids, faults);
    var s2, t := Refunding(p.chain, p.db, 0, 0, 0, 0, 0), ids[i];
    var mid := RefundAll(s2, ids[..i], p.blocked, faults);
    UnvisitedListing(s, ids, faults, t);
    if t !in p.blocked {
      UnblockedIsCleared(s, ids, faults, t);
    }
    OwedIgnoresListings(c, p.chain, ids[..i]);
    RefundingConserves(s2, ids[..i], ids[..i], p.blocked, faults);
    PoolBefore(s2, ids, i, p.blocked, faults);
    UntouchedToken(s2, ids[..i], p.blocked, faults, t);
    assert Raw(c, t) == Raw(p.chain, t) == Raw(mid.chain, t) by {
      SameRaw(c, p.chain, t);
    }
    OwnPayment(mid, t, p.blocked, faults(t));
    RefundNext(s2, ids, i, p.blocked, faults);
    assert t in ids[..i + 1];
    LaterTokensDoNotMatter(s2, ids, i + 1, p.blocked, faults, t);
  }

  lemma SameRaw(c: Chain, d: Chain, t: nat)
    requires c.raw == d.raw
    ensures Raw(c, t) == Raw(d, t)
  {
  }

  /** A sold, listed ticket of an event with refunds: taken off the market, paid, and shown as refunded. */
  lemma OneTicketIsRefunded(price: nat, pool: nat)
    requires 0 < price <= pool
    ensures var c := Chain(map[7 := Sold], map[7 := price], map[7 := 3], map[3 := "seller"], pool, true, false, []);
            var db := Db(map[7 := TicketRow(Sold, "market", true)], [ListingRow(Some(3), 7, true)]);
            var r := Sweep(c, db, [7], t => NO_FAULTS);
            && r.chain.raw == map[7 := Refunded] && r.chain.pool == pool - price && r.chain.paid == [7]
            && r.chain.listing == map[] && r.db.tickets == map[7 := TicketRow(Refunded, "seller", false)]
            && r.db.listings == [ListingRow(Some(3), 7, false)] && r.refunded == 1 && r.inspected == 1
  {
    var c := Chain(map[7 := Sold], map[7 := price], map[7 := 3], map[3 := "seller"], pool, true, false, []);
    var db := Db(map[7 := TicketRow(Sold, "market", true)], [ListingRow(Some(3), 7, true)]);
    var s := Cancelling(c, db, 0, 0, 0, {});
    SweepOne(c, db, 7, t => NO_FAULTS);
    var p := CancelOne(s, 7, NO_FAULTS);
    assert CancelRow(db.listings, 3, 7) == [ListingRow(Some(3), 7, false)];
    assert p == Cancelling(c.(listing := map[]), Db(map[7 := TicketRow(Sold, "seller", false)],
                                                    [ListingRow(Some(3), 7, false)]), 1, 1, 0, {});
  }

  lemma SweepOne(c: Chain, db: Db, t: nat, faults: nat -> Faults)
    ensures var p := CancelOne(Cancelling(c, db, 0, 0, 0, {}), t, faults(t));
            Sweep(c, db, [t], faults)
            == RefundOne(Refunding(p.chain, p.db, 0, 0, 0, 0, 0), t, p.blocked, faults(t))
  {
    hide CancelOne, RefundOne;
    var s, ids := Cancelling(c, db, 0, 0, 0, {}), [t];
    assert ids[..0] == [];
    assert CancelAll(s, ids[..0], faults) == s;
    var p := Phase1(c, db, ids, faults);
    RefundNone(Refunding(p.chain, p.db, 0, 0, 0, 0, 0), p.blocked, faults);
  }
}
