/**
 * Applying a delta once per key. The event totals and the reward totals of the
 * repository are both tallies of this kind.
 */
module Once {
  import opened Sums

  datatype Delivery<K> = Delivery(key: K, delta: int)

  /** A running total and the keys that have been counted into it. */
  datatype Tally<K> = Tally(total: int, seen: set<K>)

  ghost function Deliver<K>(t: Tally<K>, d: Delivery<K>): Tally<K>
  {
    if d.key in t.seen then t else Tally(t.total + d.delta, t.seen + {d.key})
  }

  ghost function DeliverAll<K>(t: Tally<K>, ds: seq<Delivery<K>>): Tally<K>
  {
    if ds == [] then t else Deliver(DeliverAll(t, ds[..|ds| - 1]), ds[|ds| - 1])
  }

  ghost function Keys<K>(ds: seq<Delivery<K>>): set<K>
  {
    set d | d in ds :: d.key
  }

  /** The delta that each key was first delivered with. */
  ghost function FirstDeltas<K>(ds: seq<Delivery<K>>): (m: map<K, int>)
    ensures m.Keys == Keys(ds)
  {
    if ds == [] then map[]
    else
      var d := ds[|ds| - 1];
      var m := FirstDeltas(ds[..|ds| - 1]);
      assert ds == ds[..|ds| - 1] + [d];
      if d.key in m then m else m[d.key := d.delta]
  }

  /** After any deliveries the total is the start plus one delta per distinct new key. */
  lemma {:induction false} TotalIsSum<K>(t: Tally<K>, ds: seq<Delivery<K>>)
    ensures DeliverAll(t, ds) == Tally(t.total + MapSum(FirstDeltas(ds) - t.seen), t.seen + Keys(ds))
  {
    if ds != [] {
      var ds', d := ds[..|ds| - 1], ds[|ds| - 1];
      assert ds == ds' + [d];
      TotalIsSum(t, ds');
      var m, m' := FirstDeltas(ds) - t.seen, FirstDeltas(ds') - t.seen;
      if d.key in t.seen + Keys(ds') {
        assert m == m';
      } else {
        assert m == m'[d.key := d.delta];
        MapSumPut(m', d.key, d.delta);
      }
      assert Keys(ds) == Keys(ds') + {d.key};
    }
  }

  /** Redelivery of a key carries the same delta. */
  ghost predicate Consistent<K>(ds: seq<Delivery<K>>)
  {
    forall d, e :: d in ds && e in ds && d.key == e.key ==> d == e
  }

  lemma {:induction false} FirstDeltasDeliver<K>(ds: seq<Delivery<K>>, d: Delivery<K>)
    requires Consistent(ds) && d in ds
    ensures FirstDeltas(ds)[d.key] == d.delta
  {
    var ds' := ds[..|ds| - 1];
    assert ds == ds' + [ds[|ds| - 1]];
    if d.key in FirstDeltas(ds') {
      var e :| e in ds' && e.key == d.key;
      FirstDeltasDeliver(ds', e);
    }
  }

  /** Order and repetition do not matter: only the set of deliveries does. */
  lemma OrderAndRepeatsDoNotMatter<K>(t: Tally<K>, ds: seq<Delivery<K>>, es: seq<Delivery<K>>)
    requires Consistent(ds)
    requires forall d :: d in ds <==> d in es
    ensures DeliverAll(t, ds) == DeliverAll(t, es)
  {
    TotalIsSum(t, ds);
    TotalIsSum(t, es);
    forall d | d in ds
      ensures FirstDeltas(ds)[d.key] == FirstDeltas(es)[d.key] == d.delta
    {
      FirstDeltasDeliver(ds, d);
      FirstDeltasDeliver(es, d);
    }
    assert FirstDeltas(ds) == FirstDeltas(es);
  }

  /** How often a key changed the total. */
  ghost function TimesApplied<K>(t: Tally<K>, ds: seq<Delivery<K>>, k: K): nat
  {
    if ds == [] then 0
    else
      var before := DeliverAll(t, ds[..|ds| - 1]);
      TimesApplied(t, ds[..|ds| - 1], k) + if ds[|ds| - 1].key == k && k !in before.seen then 1 else 0
  }

  lemma {:induction false} AppliedOncePerKey<K>(t: Tally<K>, ds: seq<Delivery<K>>, k: K)
    ensures TimesApplied(t, ds, k) == if k in Keys(ds) && k !in t.seen then 1 else 0
  {
    if ds != [] {
      var ds', d := ds[..|ds| - 1], ds[|ds| - 1];
      assert ds == ds' + [d];
      AppliedOncePerKey(t, ds', k);
      TotalIsSum(t, ds');
      assert Keys(ds) == Keys(ds') + {d.key};
    }
  }

  /** Forgetting keys without taking their deltas out of the total. */
  ghost function Forget<K>(t: Tally<K>, keys: set<K>): Tally<K>
  {
    t.(seen := t.seen - keys)
  }

  /**
   * Redelivering everything after forgetting some keys counts those keys a
   * second time; the total is unchanged only if their deltas cancel.
   */
  lemma ForgettingCountsAgain<K>(start: int, ds: seq<Delivery<K>>, keys: set<K>)
    ensures DeliverAll(Forget(DeliverAll(Tally(start, {}), ds), keys), ds).total
            == DeliverAll(Tally(start, {}), ds).total + MapSum(FirstDeltas(ds) - (Keys(ds) - keys))
  {
    TotalIsSum(Tally(start, {}), ds);
    var f := Forget(DeliverAll(Tally(start, {}), ds), keys);
    TotalIsSum(f, ds);
    assert f.seen == Keys(ds) - keys;
  }

  /** With positive deltas, forgetting is harmless exactly when it forgets nothing that was counted. */
  lemma ForgettingIsHarmlessIff<K>(start: int, ds: seq<Delivery<K>>, keys: set<K>)
    requires forall d :: d in ds ==> d.delta > 0
    ensures DeliverAll(Forget(DeliverAll(Tally(start, {}), ds), keys), ds).total
            == DeliverAll(Tally(start, {}), ds).total
            <==> keys !! Keys(ds)
  {
    ForgettingCountsAgain(start, ds, keys);
    FirstDeltasPositive(ds);
    var m := FirstDeltas(ds) - (Keys(ds) - keys);
    MapSumNonNegative(m);
    if k :| k in keys && k in Keys(ds) {
      assert k in m && m[k] > 0;
    } else {
      assert m == map[];
    }
  }

  lemma {:induction false} FirstDeltasPositive<K>(ds: seq<Delivery<K>>)
    requires forall d :: d in ds ==> d.delta > 0
    ensures forall k :: k in FirstDeltas(ds) ==> FirstDeltas(ds)[k] > 0
  {
    if ds != [] {
      FirstDeltasPositive(ds[..|ds| - 1]);
    }
  }

  /** Starting again from the start value with no keys gives back the first result, in any order. */
  lemma ReplayFromScratch<K>(start: int, ds: seq<Delivery<K>>, es: seq<Delivery<K>>)
    requires Consistent(ds)
    requires forall d :: d in ds <==> d in es
    ensures DeliverAll(Forget(Tally(start, Keys(ds)), Keys(ds)), es) == DeliverAll(Tally(start, {}), ds)
  {
    OrderAndRepeatsDoNotMatter(Tally(start, {}), ds, es);
    assert Keys(ds) - Keys(ds) == {};
  }
}
