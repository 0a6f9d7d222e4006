/**
 * Event documents and the idempotent update that adds chain amounts to their
 * String-typed counters once per (transaction hash, field).
 */
module EventTotals {
  import opened Sums
  import opened Once
  import opened Text

  const MAX_LONG: int := 0x7fff_ffff_ffff_ffff
  const MIN_LONG: int := -0x8000_0000_0000_0000

  predicate FitsLong(n: int)
  {
    MIN_LONG <= n <= MAX_LONG
  }

  /**
   * A counter as the database holds it. A sum outside 64 bits is no longer an
   * exact integer string; nothing more is said about such a value.
   */
  datatype Counter = Exact(n: int) | Inexact

  datatype Mark = Mark(txHash: string, field: string)

  datatype EventDoc = EventDoc(counters: map<string, Counter>, labels: map<string, string>, processed: seq<Mark>)

  datatype Update = Update(txHash: string, field: string, inc: map<string, int>, labels: map<string, string>)

  datatype Outcome = Applied | AlreadyApplied | NothingToDo | ConversionError

  function MarkOf(u: Update): Mark
  {
    Mark(Lower(u.txHash), u.field)
  }

  function CounterOf(doc: EventDoc, key: string): Counter
  {
    if key in doc.counters then doc.counters[key] else Exact(0)
  }

  function Plus(c: Counter, delta: int): Counter
  {
    if c.Exact? && FitsLong(c.n + delta) then Exact(c.n + delta) else Inexact
  }

  /** Both operands of every addition convert to 64-bit integers. */
  predicate Convertible(doc: EventDoc, inc: map<string, int>)
  {
    forall k :: k in inc ==> FitsLong(inc[k]) && CounterOf(doc, k).Exact? && FitsLong(CounterOf(doc, k).n)
  }

  predicate Trivial(u: Update)
  {
    u.inc == map[] && u.labels == map[]
  }

  function Decide(doc: EventDoc, u: Update): Outcome
  {
    if Trivial(u) then NothingToDo
    else if MarkOf(u) in doc.processed then AlreadyApplied
    else if !Convertible(doc, u.inc) then ConversionError
    else Applied
  }

  function After(doc: EventDoc, u: Update): EventDoc
  {
    if Decide(doc, u) != Applied then doc
    else EventDoc(doc.counters + map k | k in u.inc :: Plus(CounterOf(doc, k), u.inc[k]),
                  doc.labels + u.labels,
                  doc.processed + [MarkOf(u)])
  }

  function AfterAll(doc: EventDoc, us: seq<Update>): EventDoc
  {
    if us == [] then doc else After(AfterAll(doc, us[..|us| - 1]), us[|us| - 1])
  }

  /** One pipeline stage per incremented key. */
  method AddAll(doc: EventDoc, inc: map<string, int>) returns (counters: map<string, Counter>)
    ensures counters == doc.counters + map k | k in inc :: Plus(CounterOf(doc, k), inc[k])
  {
    counters := doc.counters;
    var todo := inc.Keys;
    while todo != {}
      invariant todo <= inc.Keys
      invariant counters == doc.counters + map k | k in inc && k !in todo :: Plus(CounterOf(doc, k), inc[k])
      decreases todo
    {
      var k :| k in todo;
      counters := counters[k := Plus(CounterOf(doc, k), inc[k])];
      todo := todo - {k};
    }
  }

  /** The collection of events, with the pipeline update and the reorg clean-up. */
  class EventStore {
    var docs: map<string, EventDoc>

    /** True exactly when the delta was applied; an unknown event modifies nothing. */
    method ApplyIdempotentDelta(eventId: string, u: Update) returns (outcome: Outcome, modified: bool)
      modifies this
      ensures eventId !in old(docs) ==> docs == old(docs) && !modified
      ensures eventId in old(docs) ==>
                && outcome == Decide(old(docs)[eventId], u)
                && docs == old(docs)[eventId := After(old(docs)[eventId], u)]
      ensures modified <==> eventId in old(docs) && outcome == Applied
    {
      modified := false;
      if Trivial(u) {
        if eventId in docs {
          assert docs == docs[eventId := docs[eventId]];
        }
        return NothingToDo, false;
      }
      if eventId !in docs {
        return AlreadyApplied, false;
      }
      var doc := docs[eventId];
      if MarkOf(u) in doc.processed {
        assert docs == docs[eventId := doc];
        return AlreadyApplied, false;
      }
      if !Convertible(doc, u.inc) {
        assert docs == docs[eventId := doc];
        return ConversionError, false;
      }
      var counters := AddAll(doc, u.inc);
      docs := docs[eventId := EventDoc(counters, doc.labels + u.labels, doc.processed + [MarkOf(u)])];
      return Applied, true;
    }

    /** Drops, in every event, the marks whose stored hash is one of the given strings. */
    method ClearProcessedTxHashes(txHashes: set<string>)
      modifies this
      ensures docs.Keys == old(docs).Keys
      ensures forall e :: e in docs ==> docs[e] == Cleared(old(docs)[e], txHashes)
    {
      docs := map e | e in docs :: Cleared(docs[e], txHashes);
    }
  }

  function WithoutHashes(marks: seq<Mark>, txHashes: set<string>): (r: seq<Mark>)
    ensures forall m :: m in r <==> m in marks && m.txHash !in txHashes
  {
    if marks == [] then []
    else (if marks[0].txHash in txHashes then [] else [marks[0]]) + WithoutHashes(marks[1..], txHashes)
  }

  function Cleared(doc: EventDoc, txHashes: set<string>): EventDoc
  {
    doc.(processed := WithoutHashes(doc.processed, txHashes))
  }

  // ---- each counter is a tally ----

  ghost function DeliveryTo(u: Update, key: string): Delivery<Mark>
  {
    Delivery(MarkOf(u), if key in u.inc then u.inc[key] else 0)
  }

  /** The deliveries an update sequence makes to one counter. */
  ghost function To(us: seq<Update>, key: string): seq<Delivery<Mark>>
  {
    if us == [] then []
    else
      var u := us[|us| - 1];
      var rest := To(us[..|us| - 1], key);
      if Trivial(u) then rest
      else rest + [DeliveryTo(u, key)]
  }

  ghost predicate AllExact(doc: EventDoc)
  {
    forall k :: CounterOf(doc, k).Exact? && FitsLong(CounterOf(doc, k).n)
  }

  ghost function TallyOf(doc: EventDoc, key: string): Tally<Mark>
    requires AllExact(doc)
  {
    Tally(CounterOf(doc, key).n, set m | m in doc.processed)
  }

  /** The start of a counter plus one delta for each distinct key delivered. */
  ghost function Expected(doc: EventDoc, us: seq<Update>, key: string): int
    requires AllExact(doc)
  {
    DeliverAll(TallyOf(doc, key), To(us, key)).total
  }

  ghost predicate SumsFit(doc: EventDoc, us: seq<Update>)
    requires AllExact(doc)
  {
    forall k :: Expected(doc, us, k) <= MAX_LONG
  }

  ghost predicate NonNegative(us: seq<Update>)
  {
    forall u :: u in us ==> forall k :: k in u.inc ==> 0 <= u.inc[k]
  }

  /** Counters that amounts were added to. */
  ghost predicate Counting(doc: EventDoc)
  {
    AllExact(doc) && forall k :: CounterOf(doc, k).n >= 0
  }

  /** If the sums fit, so do the amounts that are added. */
  lemma OneUpdate(doc: EventDoc, u: Update)
    requires Counting(doc) && NonNegative([u]) && !Trivial(u)
    requires forall k :: Deliver(TallyOf(doc, k), DeliveryTo(u, k)).total <= MAX_LONG
    ensures Counting(After(doc, u))
    ensures forall k :: TallyOf(After(doc, u), k) == Deliver(TallyOf(doc, k), DeliveryTo(u, k))
    ensures Decide(doc, u) == Applied <==> MarkOf(u) !in doc.processed
  {
    assert u in [u];
    if MarkOf(u) !in doc.processed {
      forall k | k in u.inc
        ensures FitsLong(u.inc[k])
      {
        assert Deliver(TallyOf(doc, k), DeliveryTo(u, k)).total == CounterOf(doc, k).n + u.inc[k];
      }
    }
    var a := After(doc, u);
    forall k
      ensures CounterOf(a, k).Exact? && FitsLong(CounterOf(a, k).n)
      ensures CounterOf(a, k).n == Deliver(TallyOf(doc, k), DeliveryTo(u, k)).total
    {
      assert Deliver(TallyOf(doc, k), DeliveryTo(u, k)).total <= MAX_LONG;
      assert CounterOf(doc, k).Exact?;
    }
  }

  lemma ToLast(doc: EventDoc, us: seq<Update>, key: string)
    requires us != [] && AllExact(doc)
    ensures DeliverAll(TallyOf(doc, key), To(us, key))
            == var rest := DeliverAll(TallyOf(doc, key), To(us[..|us| - 1], key));
               if Trivial(us[|us| - 1]) then rest else Deliver(rest, DeliveryTo(us[|us| - 1], key))
  {
    var ds := To(us, key);
    if !Trivial(us[|us| - 1]) {
      assert ds[..|ds| - 1] == To(us[..|us| - 1], key);
    }
  }

  lemma ExpectedGrows(doc: EventDoc, us: seq<Update>, key: string)
    requires AllExact(doc) && us != [] && NonNegative(us)
    ensures Expected(doc, us[..|us| - 1], key) <= Expected(doc, us, key)
  {
    assert us[|us| - 1] in us;
    ToLast(doc, us, key);
  }

  lemma PrefixFits(doc: EventDoc, us: seq<Update>)
    requires AllExact(doc) && us != [] && NonNegative(us)
    requires SumsFit(doc, us)
    ensures SumsFit(doc, us[..|us| - 1])
  {
    var us' := us[..|us| - 1];
    forall k
      ensures Expected(doc, us', k) <= MAX_LONG
    {
      ExpectedGrows(doc, us, k);
      assert Expected(doc, us, k) <= MAX_LONG;
    }
  }

  lemma {:induction false} CountersAreTallies(doc: EventDoc, us: seq<Update>)
    requires Counting(doc) && NonNegative(us)
    requires SumsFit(doc, us)
    ensures Counting(AfterAll(doc, us))
    ensures forall k :: TallyOf(AfterAll(doc, us), k) == DeliverAll(TallyOf(doc, k), To(us, k))
  {
    if us != [] {
      var u, us' := us[|us| - 1], us[..|us| - 1];
      assert us == us' + [u] && u in us;
      PrefixFits(doc, us);
      CountersAreTallies(doc, us');
      var mid := AfterAll(doc, us');
      forall k {
        ToLast(doc, us, k);
      }
      if !Trivial(u) {
        forall k
          ensures Deliver(TallyOf(mid, k), DeliveryTo(u, k)).total <= MAX_LONG
        {
          assert Expected(doc, us, k) <= MAX_LONG;
        }
        OneUpdate(mid, u);
      }
    }
  }

  /**
   * For non-negative amounts of any size: every counter ends as its start plus
   * one delta per distinct (lower-cased hash, field) exactly when all those
   * sums fit in 64 bits.
   */
  lemma TotalsAreExactIff(doc: EventDoc, us: seq<Update>)
    requires Counting(doc) && NonNegative(us)
    ensures SumsFit(doc, us)
            <==> AllExact(AfterAll(doc, us)) && forall k :: CounterOf(AfterAll(doc, us), k).n == Expected(doc, us, k)
  {
    if SumsFit(doc, us) {
      CountersAreTallies(doc, us);
      forall k
        ensures CounterOf(AfterAll(doc, us), k).n == Expected(doc, us, k)
      {
        assert TallyOf(AfterAll(doc, us), k).total == Expected(doc, us, k);
      }
    }
  }

  /** The expected total, written out as a sum over the distinct new keys. */
  lemma ExpectedIsSum(doc: EventDoc, us: seq<Update>, key: string)
    requires AllExact(doc)
    ensures Expected(doc, us, key)
            == CounterOf(doc, key).n + MapSum(FirstDeltas(To(us, key)) - set m | m in doc.processed)
  {
    TotalIsSum(TallyOf(doc, key), To(us, key));
  }

  /** How often a call for the given key reported that it applied its delta. */
  ghost function TimesTrue(doc: EventDoc, us: seq<Update>, m: Mark): nat
  {
    if us == [] then 0
    else
      var u, us' := us[|us| - 1], us[..|us| - 1];
      TimesTrue(doc, us', m) + if MarkOf(u) == m && Decide(AfterAll(doc, us'), u) == Applied then 1 else 0
  }

  /** The marks are those of the start and of the deliveries. */
  lemma MarksSeen(doc: EventDoc, us: seq<Update>, m: Mark)
    requires Counting(doc) && NonNegative(us) && SumsFit(doc, us)
    ensures m in AfterAll(doc, us).processed <==> m in doc.processed || m in Keys(To(us, ""))
  {
    var mid := AfterAll(doc, us);
    CountersAreTallies(doc, us);
    TotalIsSum(TallyOf(doc, ""), To(us, ""));
    assert TallyOf(mid, "").seen == TallyOf(doc, "").seen + Keys(To(us, ""));
    assert m in mid.processed <==> m in TallyOf(mid, "").seen;
  }

  /** A call applies its delta unless its key was processed at the start or delivered before, or it is too large. */
  lemma NextDecision(doc: EventDoc, us: seq<Update>, u: Update)
    requires Counting(doc) && NonNegative(us) && SumsFit(doc, us)
    ensures Decide(AfterAll(doc, us), u) == Applied
            <==> !Trivial(u) && MarkOf(u) !in doc.processed && MarkOf(u) !in Keys(To(us, ""))
                 && forall k :: k in u.inc ==> FitsLong(u.inc[k])
  {
    hide SumsFit, To;
    CountersAreTallies(doc, us);
    MarksSeen(doc, us, MarkOf(u));
  }

  /** If the sums still fit after a call, its amount is not too large. */
  lemma LastDecision(doc: EventDoc, us: seq<Update>)
    requires Counting(doc) && NonNegative(us) && us != [] && SumsFit(doc, us)
    ensures var u, before := us[|us| - 1], us[..|us| - 1];
            Decide(AfterAll(doc, before), u) == Applied
            <==> !Trivial(u) && MarkOf(u) !in doc.processed && MarkOf(u) !in Keys(To(before, ""))
  {
    hide SumsFit, To, After, TallyOf, Convertible;
    var u, before := us[|us| - 1], us[..|us| - 1];
    assert us == before + [u] && u in us;
    PrefixFits(doc, us);
    CountersAreTallies(doc, before);
    MarksSeen(doc, before, MarkOf(u));
    if !Trivial(u) {
      MidFits(doc, us, u, AfterAll(doc, before));
      OneUpdate(AfterAll(doc, before), u);
    }
  }

  lemma MidFits(doc: EventDoc, us: seq<Update>, u: Update, mid: EventDoc)
    requires Counting(doc) && NonNegative(us) && us != [] && SumsFit(doc, us) && u == us[|us| - 1] && !Trivial(u)
    requires AllExact(mid) && forall k :: TallyOf(mid, k) == DeliverAll(TallyOf(doc, k), To(us[..|us| - 1], k))
    ensures forall k :: Deliver(TallyOf(mid, k), DeliveryTo(u, k)).total <= MAX_LONG
  {
    forall k
      ensures Deliver(TallyOf(mid, k), DeliveryTo(u, k)).total <= MAX_LONG
    {
      ToLast(doc, us, k);
      assert Expected(doc, us, k) <= MAX_LONG;
    }
  }

  /** One call per key reports true, unless the key was processed before. */
  lemma {:induction false} TrueOncePerKey(doc: EventDoc, us: seq<Update>, m: Mark)
    requires Counting(doc) && NonNegative(us) && SumsFit(doc, us)
    ensures TimesTrue(doc, us, m) == if m in Keys(To(us, "")) && m !in doc.processed then 1 else 0
  {
    hide SumsFit, AllExact, Decide, After, AfterAll;
    if us != [] {
      var u, us' := us[|us| - 1], us[..|us| - 1];
      assert us == us' + [u] && u in us;
      PrefixFits(doc, us);
      TrueOncePerKey(doc, us', m);
      LastDecision(doc, us);
      if !Trivial(u) {
        assert Keys(To(us, "")) == Keys(To(us', "")) + {MarkOf(u)};
      }
    }
  }

  // ---- labels ----

  /** An update is applied in full or not at all. */
  lemma AllOrNothing(doc: EventDoc, u: Update)
    ensures var after := After(doc, u);
            if && (u.inc != map[] || u.labels != map[]) && Mark(Lower(u.txHash), u.field) !in doc.processed
               && Convertible(doc, u.inc)
            then && after.processed == doc.processed + [Mark(Lower(u.txHash), u.field)]
                 && (forall l :: l in u.labels ==> l in after.labels && after.labels[l] == u.labels[l])
                 && (forall l :: l !in u.labels ==> (l in after.labels <==> l in doc.labels))
                 && (forall l :: l in doc.labels && l !in u.labels ==> after.labels[l] == doc.labels[l])
                 && (forall k :: k in u.inc ==> CounterOf(after, k) == Plus(CounterOf(doc, k), u.inc[k]))
                 && (forall k :: k !in u.inc ==> CounterOf(after, k) == CounterOf(doc, k))
            else after == doc
  {
  }

  predicate Sets(doc: EventDoc, us: seq<Update>, i: int, name: string)
    requires 0 <= i < |us|
  {
    Decide(AfterAll(doc, us[..i]), us[i]) == Applied && name in us[i].labels
  }

  predicate SameLabel(doc: EventDoc, after: EventDoc, name: string)
  {
    && (name in after.labels <==> name in doc.labels)
    && (name in doc.labels ==> after.labels[name] == doc.labels[name])
  }

  lemma LabelStep(doc: EventDoc, u: Update, name: string)
    ensures if Decide(doc, u) == Applied && name in u.labels
            then name in After(doc, u).labels && After(doc, u).labels[name] == u.labels[name]
            else SameLabel(doc, After(doc, u), name)
  {
    hide Decide;
  }

  /** A label is what the last applied update that names it sets it to, or what it was at the start. */
  lemma {:induction false} LabelIsLastApplied(doc: EventDoc, us: seq<Update>, name: string) returns (i: int)
    ensures -1 <= i < |us| && forall j :: i < j < |us| ==> !Sets(doc, us, j, name)
    ensures var after := AfterAll(doc, us);
            if i == -1 then SameLabel(doc, after, name)
            else Sets(doc, us, i, name) && name in after.labels && after.labels[name] == us[i].labels[name]
  {
    hide Decide, After;
    i := -1;
    if us != [] {
      var n := |us| - 1;
      i := LabelIsLastApplied(doc, us[..n], name);
      LabelStep(AfterAll(doc, us[..n]), us[n], name);
      forall j | 0 <= j < n
        ensures Sets(doc, us[..n], j, name) <==> Sets(doc, us, j, name)
      {
        assert us[..n][..j] == us[..j];
      }
      if Sets(doc, us, n, name) {
        i := n;
      }
    }
  }
}
