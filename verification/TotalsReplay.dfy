/**
 * Counting an event's chain amounts again: after its counters were zeroed and
 * marks were cleared, and after the rebuild that a reorganisation triggers.
 */
module TotalsReplay {
  import opened Sums
  import opened Once
  import opened Text
  import opened EventTotals

  // ---- zero, clear, redeliver ----

  /** All counters zero, and no marks. */
  ghost predicate Blank(doc: EventDoc)
  {
    doc.processed == [] && forall k :: CounterOf(doc, k) == Exact(0)
  }

  function Zeroed(doc: EventDoc): EventDoc
  {
    doc.(counters := map[])
  }

  /** Redelivery of a key carries the same amounts. */
  ghost predicate SameDeltasPerKey(us: seq<Update>)
  {
    forall u, w :: u in us && w in us && !Trivial(u) && !Trivial(w) && MarkOf(u) == MarkOf(w) ==> u.inc == w.inc
  }

  /** Every payment of the first is one of the second, whatever the labels. */
  ghost predicate Repays(us: seq<Update>, ws: seq<Update>)
  {
    forall u :: u in us && !Trivial(u) ==>
      exists w :: w in ws && !Trivial(w) && MarkOf(w) == MarkOf(u) && w.inc == u.inc
  }

  /** The same payments, in any order and with any repetition. */
  ghost predicate SamePayments(us: seq<Update>, ws: seq<Update>)
  {
    Repays(us, ws) && Repays(ws, us)
  }

  ghost predicate Positive(us: seq<Update>)
  {
    forall u :: u in us ==> forall k :: k in u.inc ==> u.inc[k] > 0
  }

  lemma {:induction false} DeliveredIff(us: seq<Update>, key: string, d: Delivery<Mark>)
    ensures d in To(us, key) <==> exists u :: u in us && !Trivial(u) && d == DeliveryTo(u, key)
  {
    if us != [] {
      assert us == us[..|us| - 1] + [us[|us| - 1]];
      DeliveredIff(us[..|us| - 1], key, d);
    }
  }

  lemma ConsistentTo(us: seq<Update>, key: string)
    requires SameDeltasPerKey(us)
    ensures Consistent(To(us, key))
  {
    forall d, e | d in To(us, key) && e in To(us, key) && d.key == e.key
      ensures d == e
    {
      DeliveredIff(us, key, d);
      DeliveredIff(us, key, e);
    }
  }

  lemma Repaid(us: seq<Update>, ws: seq<Update>, key: string, d: Delivery<Mark>)
    requires Repays(us, ws) && d in To(us, key)
    ensures d in To(ws, key)
  {
    DeliveredIff(us, key, d);
    DeliveredIff(ws, key, d);
  }

  /** The same payments deliver the same to every counter. */
  lemma SameDeliveries(us: seq<Update>, ws: seq<Update>, key: string)
    requires SameDeltasPerKey(us) && SamePayments(us, ws)
    ensures FirstDeltas(To(us, key)) == FirstDeltas(To(ws, key))
  {
    ConsistentTo(us, key);
    hide To, SameDeltasPerKey, FirstDeltas, Repays;
    forall d: Delivery<Mark>
      ensures d in To(us, key) <==> d in To(ws, key)
    {
      if d in To(us, key) {
        Repaid(us, ws, key, d);
      } else if d in To(ws, key) {
        Repaid(ws, us, key, d);
      }
    }
    assert Consistent(To(ws, key));
    forall d | d in To(us, key)
      ensures FirstDeltas(To(us, key))[d.key] == FirstDeltas(To(ws, key))[d.key]
    {
      FirstDeltasDeliver(To(us, key), d);
      FirstDeltasDeliver(To(ws, key), d);
    }
  }

  lemma RepaidNonNegative(us: seq<Update>, ws: seq<Update>)
    requires NonNegative(us) && Repays(ws, us)
    ensures NonNegative(ws)
  {
    forall w | w in ws
      ensures forall k :: k in w.inc ==> w.inc[k] >= 0
    {
      if !Trivial(w) {
        var u :| u in us && u.inc == w.inc;
      }
    }
  }

  /** What a key first delivers to a counter is its update's amount. */
  lemma FirstDeltaIs(us: seq<Update>, u: Update, key: string)
    requires SameDeltasPerKey(us) && u in us && !Trivial(u)
    ensures MarkOf(u) in FirstDeltas(To(us, key))
    ensures FirstDeltas(To(us, key))[MarkOf(u)] == if key in u.inc then u.inc[key] else 0
  {
    ConsistentTo(us, key);
    DeliveredIff(us, key, DeliveryTo(u, key));
    FirstDeltasDeliver(To(us, key), DeliveryTo(u, key));
  }

  /** From a blank document every counter is the sum over the distinct keys, and every key is marked. */
  lemma BlankTotals(doc: EventDoc, us: seq<Update>, key: string)
    requires Blank(doc) && NonNegative(us) && SumsFit(doc, us)
    ensures Counting(AfterAll(doc, us))
    ensures CounterOf(AfterAll(doc, us), key).n == MapSum(FirstDeltas(To(us, key))) == Expected(doc, us, key)
    ensures forall m :: m in AfterAll(doc, us).processed <==> m in Keys(To(us, key))
  {
    CountersAreTallies(doc, us);
    ExpectedIsSum(doc, us, key);
    TotalIsSum(TallyOf(doc, key), To(us, key));
    assert FirstDeltas(To(us, key)) - TallyOf(doc, key).seen == FirstDeltas(To(us, key));
    assert TallyOf(AfterAll(doc, us), key).total == Expected(doc, us, key);
    forall m
      ensures m in AfterAll(doc, us).processed <==> m in Keys(To(us, key))
    {
      assert m in AfterAll(doc, us).processed <==> m in TallyOf(AfterAll(doc, us), key).seen;
    }
  }

  /** The event after a first pass, with its counters zeroed and some hashes cleared. */
  function StartAgain(doc: EventDoc, us: seq<Update>, hashes: set<string>): EventDoc
  {
    Zeroed(Cleared(AfterAll(doc, us), hashes))
  }

  /** Every hash that paid anything into the counter is among those cleared. */
  ghost predicate PaidCleared(us: seq<Update>, hashes: set<string>, key: string)
  {
    forall u :: u in us && key in u.inc && u.inc[key] != 0 ==> Lower(u.txHash) in hashes
  }

  ghost predicate SameCounters(a: EventDoc, b: EventDoc)
  {
    forall k :: CounterOf(a, k) == CounterOf(b, k)
  }

  /** Exactly if so, nothing that is left marked paid anything into it. */
  lemma PaidClearedIff(us: seq<Update>, hashes: set<string>, key: string, left: set<Mark>)
    requires NonNegative(us) && SameDeltasPerKey(us)
    requires forall u :: u in us && !Trivial(u) ==> (MarkOf(u) in left <==> Lower(u.txHash) !in hashes)
    ensures var m := FirstDeltas(To(us, key));
            && (forall k :: k in m ==> m[k] >= 0)
            && (PaidCleared(us, hashes, key) <==> forall k :: k in m && k in left ==> m[k] == 0)
  {
    hide SameDeltasPerKey, To;
    var m := FirstDeltas(To(us, key));
    forall k | k in m
      ensures exists u :: u in us && !Trivial(u) && MarkOf(u) == k && m[k] == if key in u.inc then u.inc[key] else 0
    {
      var d :| d in To(us, key) && d.key == k;
      DeliveredIff(us, key, d);
      var u :| u in us && !Trivial(u) && d == DeliveryTo(u, key);
      FirstDeltaIs(us, u, key);
    }
    forall u | u in us && !Trivial(u)
      ensures MarkOf(u) in m && m[MarkOf(u)] == if key in u.inc then u.inc[key] else 0
    {
      FirstDeltaIs(us, u, key);
    }
  }

  lemma MarksLeft(doc: EventDoc, us: seq<Update>, hashes: set<string>, u: Update)
    requires Blank(doc) && NonNegative(us) && SumsFit(doc, us) && u in us && !Trivial(u)
    ensures MarkOf(u) in StartAgain(doc, us, hashes).processed <==> Lower(u.txHash) !in hashes
  {
    hide SumsFit, AfterAll, To;
    BlankTotals(doc, us, "");
    DeliveredIff(us, "", DeliveryTo(u, ""));
  }

  lemma AgainCounts(doc: EventDoc, us: seq<Update>, hashes: set<string>)
    ensures Counting(StartAgain(doc, us, hashes)) && forall k :: CounterOf(StartAgain(doc, us, hashes), k) == Exact(0)
  {
  }

  /** What a counter can reach again: the amounts whose marks are gone. */
  lemma ReachedAgain(doc: EventDoc, us: seq<Update>, ws: seq<Update>, hashes: set<string>, key: string)
    requires Blank(doc) && NonNegative(us) && SumsFit(doc, us)
    requires SameDeltasPerKey(us) && SamePayments(us, ws)
    ensures Counting(StartAgain(doc, us, hashes))
    ensures Expected(StartAgain(doc, us, hashes), ws, key) <= Expected(doc, us, key)
    ensures Expected(StartAgain(doc, us, hashes), ws, key) == Expected(doc, us, key) <==> PaidCleared(us, hashes, key)
  {
    hide SumsFit, AfterAll, Expected, StartAgain, PaidCleared, To, FirstDeltas, MapSum, SameDeltasPerKey,
         NonNegative, Counting;
    var again := StartAgain(doc, us, hashes);
    AgainCounts(doc, us, hashes);
    CountingIsExact(again);
    BlankTotals(doc, us, key);
    SameDeliveries(us, ws, key);
    ExpectedIsSum(again, ws, key);
    forall u | u in us && !Trivial(u) {
      MarksLeft(doc, us, hashes, u);
    }
    var left := set m | m in again.processed;
    PaidClearedIff(us, hashes, key, left);
    MapSumPart(FirstDeltas(To(us, key)), FirstDeltas(To(us, key)) - left);
  }

  lemma CountingIsExact(doc: EventDoc)
    requires Counting(doc)
    ensures AllExact(doc)
  {
  }

  /** A counter is what it was, or inexact, or fits in 64 bits: nothing else is ever written. */
  lemma {:induction false} UntouchedOrFits(doc: EventDoc, us: seq<Update>, key: string)
    ensures var c := CounterOf(AfterAll(doc, us), key); c == CounterOf(doc, key) || c.Inexact? || FitsLong(c.n)
  {
    if us != [] {
      UntouchedOrFits(doc, us[..|us| - 1], key);
    }
  }

  /**
   * Zeroing the counters, clearing the given hashes, and delivering the same
   * payments again, in any order and with any repetition, gives every counter
   * its exact total exactly if those totals fit in 64 bits, and every hash that
   * paid anything is cleared.
   */
  lemma ReplayGivesSameTotalsIff(doc: EventDoc, us: seq<Update>, ws: seq<Update>, hashes: set<string>)
    requires Blank(doc) && NonNegative(us) && SameDeltasPerKey(us) && SamePayments(us, ws)
    ensures SumsFit(doc, us) ==> forall k :: CounterOf(AfterAll(doc, us), k) == Exact(Expected(doc, us, k))
    ensures (forall k :: CounterOf(AfterAll(StartAgain(doc, us, hashes), ws), k) == Exact(Expected(doc, us, k)))
            <==> SumsFit(doc, us) && forall key :: PaidCleared(us, hashes, key)
  {
    hide AfterAll, Expected, PaidCleared, StartAgain, SamePayments, SameDeltasPerKey, NonNegative;
    if SumsFit(doc, us) {
      ReplayReaches(doc, us, ws, hashes);
    } else {
      var k :| Expected(doc, us, k) > MAX_LONG;
      UntouchedOrFits(StartAgain(doc, us, hashes), ws, k);
      StartsAtZero(doc, us, hashes, k);
    }
  }

  lemma StartsAtZero(doc: EventDoc, us: seq<Update>, hashes: set<string>, key: string)
    ensures CounterOf(StartAgain(doc, us, hashes), key) == Exact(0)
  {
  }

  lemma ReplayReaches(doc: EventDoc, us: seq<Update>, ws: seq<Update>, hashes: set<string>)
    requires Blank(doc) && NonNegative(us) && SumsFit(doc, us) && SameDeltasPerKey(us) && SamePayments(us, ws)
    ensures forall k :: CounterOf(AfterAll(doc, us), k) == Exact(Expected(doc, us, k))
    ensures forall k ::
              CounterOf(AfterAll(StartAgain(doc, us, hashes), ws), k) == Exact(Expected(doc, us, k))
              <==> PaidCleared(us, hashes, k)
  {
    hide AfterAll, Expected, PaidCleared, StartAgain, SameDeltasPerKey, Repays;
    var again := StartAgain(doc, us, hashes);
    RepaidNonNegative(us, ws);
    AgainCounts(doc, us, hashes);
    forall k
      ensures Expected(again, ws, k) <= MAX_LONG
      ensures Expected(again, ws, k) == Expected(doc, us, k) <==> PaidCleared(us, hashes, k)
    {
      ReachedAgain(doc, us, ws, hashes, k);
      assert Expected(doc, us, k) <= MAX_LONG;
    }
    forall k
      ensures CounterOf(AfterAll(doc, us), k) == Exact(Expected(doc, us, k))
      ensures CounterOf(AfterAll(again, ws), k) == Exact(Expected(again, ws, k))
    {
      Reached(doc, us, k);
      Reached(again, ws, k);
    }
  }

  lemma Reached(doc: EventDoc, us: seq<Update>, key: string)
    requires Counting(doc) && NonNegative(us) && SumsFit(doc, us)
    ensures AllExact(AfterAll(doc, us)) && CounterOf(AfterAll(doc, us), key) == Exact(Expected(doc, us, key))
  {
    hide SumsFit;
    TotalsAreExactIff(doc, us);
  }

  // ---- the rebuild after a reorganisation ----

  /** The counters that the rebuild computes anew. */
  const REBUILT: set<string> := {
    "totalPenaltyAmount", "ticketRevenueDeposited", "royaltyRevenueDeposited", "refundedAmount",
    "extraRefundPoolDeposited"
  }

  /** Every log counts, whatever its transaction. */
  function SumTo(us: seq<Update>, key: string): int
  {
    if us == [] then 0
    else SumTo(us[..|us| - 1], key) + if key in us[|us| - 1].inc then us[|us| - 1].inc[key] else 0
  }

  /** The sums of an event's logs, and no marks. */
  function RebuiltFromLog(doc: EventDoc, us: seq<Update>): EventDoc
  {
    doc.(counters := doc.counters + map k | k in REBUILT :: Exact(SumTo(us, k)), processed := [])
  }

  lemma SumToNext(us: seq<Update>, i: nat, key: string)
    requires i < |us|
    ensures SumTo(us[..i + 1], key) == SumTo(us[..i], key) + if key in us[i].inc then us[i].inc[key] else 0
  {
    assert us[..i + 1][..i] == us[..i];
  }

  function Tallied(us: seq<Update>): map<string, int>
  {
    map k | k in REBUILT :: SumTo(us, k)
  }

  lemma TalliedNext(us: seq<Update>, i: nat, state: map<string, int>)
    requires i < |us| && state == Tallied(us[..i])
    ensures Tallied(us[..i + 1]) == map k | k in state :: state[k] + if k in us[i].inc then us[i].inc[k] else 0
  {
    hide SumTo, REBUILT;
    forall k | k in REBUILT {
      SumToNext(us, i, k);
    }
  }

  /** One pass over the event's logs. */
  method RebuildState(doc: EventDoc, us: seq<Update>) returns (rebuilt: EventDoc)
    ensures rebuilt == RebuiltFromLog(doc, us)
  {
    hide SumTo, REBUILT;
    var state := map k | k in REBUILT :: 0;
    assert state == Tallied(us[..0]) by {
      NothingTallied();
    }
    for i := 0 to |us|
      invariant state == Tallied(us[..i])
    {
      TalliedNext(us, i, state);
      var inc := us[i].inc;
      state := map k | k in state :: state[k] + if k in inc then inc[k] else 0;
    }
    assert us[..|us|] == us;
    rebuilt := doc.(counters := doc.counters + map k | k in state :: Exact(state[k]), processed := []);
  }

  lemma NothingTallied()
    ensures Tallied([]) == map k | k in REBUILT :: 0
  {
  }

  /** A log pays into the counter with the mark of an earlier one. */
  ghost predicate RepeatsAt(us: seq<Update>, key: string, j: nat)
    requires j < |us|
  {
    key in us[j].inc && exists i: nat :: i < j && !Trivial(us[i]) && MarkOf(us[i]) == MarkOf(us[j])
  }

  lemma {:induction false} KeyDelivered(us: seq<Update>, key: string, m: Mark)
    ensures m in Keys(To(us, key)) <==> exists i: nat :: i < |us| && !Trivial(us[i]) && MarkOf(us[i]) == m
  {
    if us != [] {
      var init, u := us[..|us| - 1], us[|us| - 1];
      KeyDelivered(init, key, m);
      if !Trivial(u) {
        assert To(us, key) == To(init, key) + [DeliveryTo(u, key)];
        assert Keys(To(us, key)) == Keys(To(init, key)) + {MarkOf(u)};
      }
      assert forall i: nat :: i < |init| ==> init[i] == us[i];
    }
  }

  lemma LastRepeats(us: seq<Update>, key: string)
    requires us != []
    ensures var u, init := us[|us| - 1], us[..|us| - 1];
            RepeatsAt(us, key, |us| - 1) <==> key in u.inc && MarkOf(u) in Keys(To(init, key))
  {
    var u, init := us[|us| - 1], us[..|us| - 1];
    KeyDelivered(init, key, MarkOf(u));
    assert forall i: nat :: i < |init| ==> init[i] == us[i];
  }

  lemma ExpectedLast(doc: EventDoc, us: seq<Update>, key: string)
    requires Blank(doc) && us != []
    ensures var u, init := us[|us| - 1], us[..|us| - 1];
            Expected(doc, us, key)
            == Expected(doc, init, key) + if key in u.inc && MarkOf(u) !in Keys(To(init, key)) then u.inc[key] else 0
  {
    ToLast(doc, us, key);
    TotalIsSum(TallyOf(doc, key), To(us[..|us| - 1], key));
  }

  ghost predicate NoneRepeats(us: seq<Update>, key: string)
  {
    forall j: nat :: j < |us| ==> !RepeatsAt(us, key, j)
  }

  lemma NoneRepeatsLast(us: seq<Update>, key: string)
    requires us != []
    ensures NoneRepeats(us, key) <==> NoneRepeats(us[..|us| - 1], key) && !RepeatsAt(us, key, |us| - 1)
  {
    var init := us[..|us| - 1];
    forall j: nat | j < |init|
      ensures RepeatsAt(us, key, j) <==> RepeatsAt(init, key, j)
    {
      assert forall i: nat :: i < |init| ==> init[i] == us[i];
    }
  }

  /** The plain sum exceeds the once-per-mark total exactly by what repeated marks pay. */
  lemma {:induction false} SumExceedsIff(doc: EventDoc, us: seq<Update>, key: string)
    requires Blank(doc) && Positive(us)
    ensures 0 <= Expected(doc, us, key) <= SumTo(us, key)
    ensures SumTo(us, key) == Expected(doc, us, key) <==> NoneRepeats(us, key)
    ensures (forall u :: u in us ==> key !in u.inc) ==> SumTo(us, key) == 0
  {
    hide To, Expected, RepeatsAt, Blank, NoneRepeats;
    if us == [] {
      NothingExpected(doc, key);
    } else {
      var init, u := us[..|us| - 1], us[|us| - 1];
      assert us == init + [u] && u in us;
      SumExceedsIff(doc, init, key);
      ExpectedLast(doc, us, key);
      LastRepeats(us, key);
      NoneRepeatsLast(us, key);
    }
  }

  lemma NothingExpected(doc: EventDoc, key: string)
    requires Blank(doc)
    ensures Expected(doc, [], key) == 0 && NoneRepeats([], key)
  {
  }

  /** The logs pay into the rebuilt counters only. */
  ghost predicate PaysRebuilt(us: seq<Update>)
  {
    forall u :: u in us ==> u.inc.Keys <= REBUILT
  }

  /**
   * The rebuild of an event gives the totals that the once-per-hash updates
   * give exactly if those fit in 64 bits and no log pays with the hash and
   * field of an earlier one: of two payments of one kind in a transaction, the
   * updates count the first only.
   */
  lemma RebuildAgreesIff(doc: EventDoc, us: seq<Update>)
    requires Blank(doc) && Positive(us) && PaysRebuilt(us)
    ensures SameCounters(RebuiltFromLog(doc, us), AfterAll(doc, us))
            <==> SumsFit(doc, us) && forall key :: NoneRepeats(us, key)
  {
    hide NoneRepeats, AfterAll, REBUILT;
    forall k
      ensures CounterOf(RebuiltFromLog(doc, us), k) == Exact(SumTo(us, k))
      ensures SumTo(us, k) == Expected(doc, us, k) <==> NoneRepeats(us, k)
      ensures SameCounters(RebuiltFromLog(doc, us), AfterAll(doc, us)) ==> Expected(doc, us, k) <= MAX_LONG
      ensures SumsFit(doc, us) ==> CounterOf(AfterAll(doc, us), k) == Exact(Expected(doc, us, k))
    {
      SumExceedsIff(doc, us, k);
      UntouchedOrFits(doc, us, k);
      if SumsFit(doc, us) {
        Reached(doc, us, k);
      }
    }
  }

  /** The field of a log decides which counters it pays into. */
  ghost predicate FieldDecides(us: seq<Update>)
  {
    forall u, w :: u in us && w in us && u.field == w.field ==> u.inc.Keys == w.inc.Keys
  }

  lemma {:induction false} FirstIsDelivered(ds: seq<Delivery<Mark>>, m: Mark)
    requires m in FirstDeltas(ds)
    ensures Delivery(m, FirstDeltas(ds)[m]) in ds
  {
    var init := ds[..|ds| - 1];
    assert ds == init + [ds[|ds| - 1]];
    if m in FirstDeltas(init) {
      FirstIsDelivered(init, m);
    }
  }

  ghost predicate PaysInto(ws: seq<Update>, key: string)
  {
    exists w :: w in ws && key in w.inc
  }

  /** Positive amounts add something to a counter exactly if one of them is for it. */
  lemma PaysIff(ws: seq<Update>, key: string)
    requires Positive(ws) && FieldDecides(ws)
    ensures MapSum(FirstDeltas(To(ws, key))) >= 0
    ensures MapSum(FirstDeltas(To(ws, key))) == 0 <==> !PaysInto(ws, key)
  {
    hide To;
    var m := FirstDeltas(To(ws, key));
    forall k | k in m
      ensures m[k] >= 0 && exists w :: w in ws && !Trivial(w) && MarkOf(w) == k && (m[k] == 0 <==> key !in w.inc)
    {
      FirstIsDelivered(To(ws, key), k);
      DeliveredIff(ws, key, Delivery(k, m[k]));
    }
    MapSumPart(m, map[]);
    forall w | w in ws && key in w.inc
      ensures MarkOf(w) in m && m[MarkOf(w)] != 0
    {
      DeliveredIff(ws, key, DeliveryTo(w, key));
      assert DeliveryTo(w, key) in To(ws, key);
      assert MarkOf(w) in m;
    }
  }

  // ---- the window that is scanned again ----

  /** Counters only grow, or become inexact. */
  ghost predicate Grown(before: EventDoc, now: EventDoc)
  {
    forall k ::
      CounterOf(now, k).Inexact? || (CounterOf(before, k).Exact? && CounterOf(now, k).n >= CounterOf(before, k).n)
  }

  lemma GrownStep(doc: EventDoc, u: Update)
    requires Positive([u])
    ensures Grown(doc, After(doc, u))
    ensures Decide(doc, u) == Applied && u.inc != map[] ==> !SameCounters(After(doc, u), doc)
    ensures Decide(doc, u) != Applied || u.inc == map[] ==> SameCounters(After(doc, u), doc)
  {
    assert u in [u];
    if Decide(doc, u) == Applied && u.inc != map[] {
      var k :| k in u.inc;
      assert CounterOf(After(doc, u), k) != CounterOf(doc, k);
    }
  }

  lemma GrownTwice(a: EventDoc, b: EventDoc, c: EventDoc)
    requires Grown(a, b) && Grown(b, c)
    ensures Grown(a, c)
    ensures SameCounters(c, a) ==> SameCounters(b, a) && SameCounters(c, b)
  {
  }

  /** An update that adds nothing: it pays nothing, or its amounts and the counters do not convert. */
  predicate Ineffective(doc: EventDoc, w: Update)
  {
    w.inc == map[] || !Convertible(doc, w.inc)
  }

  /** As long as the counters are what they were, only updates that pay nothing have left marks. */
  ghost predicate MarksPayNothing(doc: EventDoc, ws: seq<Update>)
  {
    forall m :: m in doc.processed ==> exists w :: w in ws && MarkOf(w) == m && w.inc == map[]
  }

  lemma {:induction false} IneffectiveIff(doc: EventDoc, ws: seq<Update>)
    requires doc.processed == [] && Positive(ws) && FieldDecides(ws)
    ensures Grown(doc, AfterAll(doc, ws))
    ensures SameCounters(AfterAll(doc, ws), doc) <==> forall w :: w in ws ==> Ineffective(doc, w)
    ensures SameCounters(AfterAll(doc, ws), doc) ==> MarksPayNothing(AfterAll(doc, ws), ws)
  {
    if ws != [] {
      hide After, Grown, SameCounters, Convertible, CounterOf;
      var init, w := ws[..|ws| - 1], ws[|ws| - 1];
      var mid := AfterAll(doc, init);
      assert ws == init + [w] && w in ws;
      IneffectiveIff(doc, init);
      GrownStep(mid, w);
      MarksAfter(mid, w);
      GrownTwice(doc, mid, AfterAll(doc, ws));
      if SameCounters(mid, doc) {
        SameConvertible(mid, doc, w.inc);
        if MarkOf(w) in mid.processed {
          var v :| v in init && MarkOf(v) == MarkOf(w) && v.inc == map[];
          assert v.inc.Keys == w.inc.Keys;
        }
      }
    }
  }

  lemma MarksAfter(doc: EventDoc, w: Update)
    ensures After(doc, w).processed == doc.processed + if Decide(doc, w) == Applied then [MarkOf(w)] else []
  {
  }

  lemma SameConvertible(a: EventDoc, b: EventDoc, inc: map<string, int>)
    requires SameCounters(a, b)
    ensures Convertible(a, inc) <==> Convertible(b, inc)
  {
  }

  /**
   * The rebuild leaves no marks, so the logs of the window that is scanned
   * again count once more on top of its sums: the counters stay what the
   * rebuild made them exactly if none of those logs pays anything that, with
   * the rebuilt counters, fits in 64 bits.
   */
  lemma RescanCountsAgainIff(doc: EventDoc, us: seq<Update>, ws: seq<Update>)
    requires Positive(ws) && FieldDecides(ws)
    ensures var rebuilt := RebuiltFromLog(doc, us);
            SameCounters(AfterAll(rebuilt, ws), rebuilt) <==> forall w :: w in ws ==> Ineffective(rebuilt, w)
  {
    NoMarks(doc, us);
    IneffectiveIff(RebuiltFromLog(doc, us), ws);
  }

  /** Counters of any size. */
  ghost predicate Natural(doc: EventDoc)
  {
    forall k :: CounterOf(doc, k).Exact? && CounterOf(doc, k).n >= 0
  }

  /** One amount per distinct mark. */
  ghost function Added(us: seq<Update>, key: string): int
  {
    MapSum(FirstDeltas(To(us, key)))
  }

  lemma AddedLast(us: seq<Update>, key: string)
    requires us != []
    ensures var u, init := us[|us| - 1], us[..|us| - 1];
            Added(us, key)
            == Added(init, key) + if key in u.inc && MarkOf(u) !in Keys(To(init, "")) then u.inc[key] else 0
  {
    var u, init := us[|us| - 1], us[..|us| - 1];
    KeyDelivered(init, key, MarkOf(u));
    KeyDelivered(init, "", MarkOf(u));
    if !Trivial(u) {
      var ds := To(us, key);
      assert ds[..|ds| - 1] == To(init, key) && ds[|ds| - 1] == DeliveryTo(u, key);
      MapSumPut(FirstDeltas(To(init, key)), MarkOf(u), DeliveryTo(u, key).delta);
    }
  }

  /** Every counter has its start and one amount per distinct mark, and exactly those marks are set. */
  ghost predicate AddedUp(doc: EventDoc, now: EventDoc, us: seq<Update>)
    requires Natural(doc)
  {
    && (forall k :: CounterOf(now, k) == Exact(CounterOf(doc, k).n + Added(us, k)))
    && (forall m :: m in now.processed <==> m in Keys(To(us, "")))
  }

  /** Wherever something is paid, it fits. */
  ghost predicate Fits(doc: EventDoc, us: seq<Update>)
    requires Natural(doc)
  {
    forall k :: PaysInto(us, k) ==> CounterOf(doc, k).n + Added(us, k) <= MAX_LONG
  }

  lemma {:induction false} AddedNatural(us: seq<Update>, key: string)
    requires Positive(us)
    ensures Added(us, key) >= 0
    ensures us != [] ==> Added(us[..|us| - 1], key) <= Added(us, key)
  {
    if us != [] {
      hide To, Added;
      assert us == us[..|us| - 1] + [us[|us| - 1]] && us[|us| - 1] in us;
      AddedNatural(us[..|us| - 1], key);
      AddedLast(us, key);
    }
  }

  lemma FitsBefore(doc: EventDoc, us: seq<Update>)
    requires Natural(doc) && Positive(us) && us != [] && Fits(doc, us)
    ensures Fits(doc, us[..|us| - 1])
  {
    hide Added;
    assert us == us[..|us| - 1] + [us[|us| - 1]];
    forall k | PaysInto(us[..|us| - 1], k)
      ensures CounterOf(doc, k).n + Added(us[..|us| - 1], k) <= MAX_LONG
    {
      AddedNatural(us, k);
      assert PaysInto(us, k);
    }
  }

  lemma KeysLast(us: seq<Update>, m: Mark)
    requires us != []
    ensures var u, init := us[|us| - 1], us[..|us| - 1];
            m in Keys(To(us, "")) <==> m in Keys(To(init, "")) || (!Trivial(u) && m == MarkOf(u))
  {
  }

  lemma LastConverts(doc: EventDoc, mid: EventDoc, us: seq<Update>)
    requires Natural(doc) && Positive(us) && us != [] && Fits(doc, us) && AddedUp(doc, mid, us[..|us| - 1])
    requires MarkOf(us[|us| - 1]) !in mid.processed
    ensures var u := us[|us| - 1];
            forall k :: k in u.inc ==>
              FitsLong(u.inc[k]) && FitsLong(CounterOf(mid, k).n) && FitsLong(CounterOf(mid, k).n + u.inc[k])
  {
    hide To, Added;
    var u, init := us[|us| - 1], us[..|us| - 1];
    assert us == init + [u] && u in us;
    forall k | k in u.inc
      ensures FitsLong(u.inc[k]) && FitsLong(CounterOf(mid, k).n) && FitsLong(CounterOf(mid, k).n + u.inc[k])
    {
      AddedLast(us, k);
      AddedNatural(init, k);
      assert PaysInto(us, k);
    }
  }

  lemma AddsOne(doc: EventDoc, mid: EventDoc, us: seq<Update>)
    requires Natural(doc) && Positive(us) && us != [] && Fits(doc, us) && AddedUp(doc, mid, us[..|us| - 1])
    ensures AddedUp(doc, After(mid, us[|us| - 1]), us)
  {
    hide To, Added, Fits;
    var u, now := us[|us| - 1], After(mid, us[|us| - 1]);
    if MarkOf(u) !in mid.processed {
      LastConverts(doc, mid, us);
    }
    forall k
      ensures CounterOf(now, k) == Exact(CounterOf(doc, k).n + Added(us, k))
    {
      AddedLast(us, k);
      assert CounterOf(mid, k) == Exact(CounterOf(doc, k).n + Added(us[..|us| - 1], k));
    }
    forall m
      ensures m in now.processed <==> m in Keys(To(us, ""))
    {
      KeysLast(us, m);
    }
  }

  lemma {:induction false} AddsUp(doc: EventDoc, ws: seq<Update>)
    requires doc.processed == [] && Natural(doc) && Positive(ws) && Fits(doc, ws)
    ensures AddedUp(doc, AfterAll(doc, ws), ws)
  {
    if ws == [] {
      assert forall k :: Added([], k) == 0;
    } else {
      hide To, Added, After, AddedUp, Natural, Fits;
      assert ws == ws[..|ws| - 1] + [ws[|ws| - 1]];
      FitsBefore(doc, ws);
      AddsUp(doc, ws[..|ws| - 1]);
      AddsOne(doc, AfterAll(doc, ws[..|ws| - 1]), ws);
    }
  }

  /**
   * Every counter then has one amount per distinct mark on top of its rebuilt
   * sum exactly if, wherever something is paid, that fits in 64 bits.
   */
  lemma RescanAddsIff(doc: EventDoc, us: seq<Update>, ws: seq<Update>)
    requires Positive(ws) && FieldDecides(ws) && Natural(RebuiltFromLog(doc, us))
    ensures var rebuilt := RebuiltFromLog(doc, us);
            (forall k :: CounterOf(AfterAll(rebuilt, ws), k) == Exact(CounterOf(rebuilt, k).n + Added(ws, k)))
            <==> forall k :: PaysInto(ws, k) ==> CounterOf(rebuilt, k).n + Added(ws, k) <= MAX_LONG
  {
    hide AfterAll, FieldDecides, RebuiltFromLog, FirstDeltas, To, MapSum, PaysInto;
    var rebuilt := RebuiltFromLog(doc, us);
    NoMarks(doc, us);
    if forall k :: PaysInto(ws, k) ==> CounterOf(rebuilt, k).n + Added(ws, k) <= MAX_LONG {
      AddsUp(rebuilt, ws);
    } else {
      var k :| PaysInto(ws, k) && CounterOf(rebuilt, k).n + Added(ws, k) > MAX_LONG;
      PaysIff(ws, k);
      UntouchedOrFits(rebuilt, ws, k);
    }
  }

  lemma NoMarks(doc: EventDoc, us: seq<Update>)
    ensures RebuiltFromLog(doc, us).processed == []
  {
  }
}
