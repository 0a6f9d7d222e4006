/** How old a cached read can be, and when the cache is exactly the database. */
module EventCacheLaws {
  import opened Options
  import opened EventCache

  /** At that time the database held this document. */
  ghost predicate HeldAt(h: seq<Version>, id: string, doc: Doc, t: nat)
  {
    exists i: nat :: i < |h| && Spans(h, i, t) && id in h[i].docs && h[i].docs[id] == doc
  }

  predicate Spans(h: seq<Version>, i: nat, t: nat)
    requires i < |h|
  {
    h[i].from <= t && (i + 1 < |h| ==> t <= h[i + 1].from)
  }

  lemma HeldStays(h: seq<Version>, v: Version, id: string, doc: Doc, t: nat)
    requires HeldAt(h, id, doc, t) && t <= v.from
    ensures HeldAt(h + [v], id, doc, t)
  {
    var i: nat :| i < |h| && Spans(h, i, t) && id in h[i].docs && h[i].docs[id] == doc;
    assert Spans(h + [v], i, t);
  }

  /** The history ends with what the database holds now. */
  predicate Recorded(s: State)
  {
    s.history != [] && s.history[|s.history| - 1].docs == s.docs && s.history[|s.history| - 1].from <= s.now
  }

  lemma HeldNow(s: State, id: string)
    requires Recorded(s) && id in s.docs
    ensures HeldAt(s.history, id, s.docs[id], s.now)
  {
    assert Spans(s.history, |s.history| - 1, s.now);
  }

  /** Every entry and every load was held when it was loaded, and an entry expires within the bound of that time. */
  ghost predicate Sound(s: State, delay: nat)
  {
    && Recorded(s) && s.ttl != 0
    && (forall id :: id in s.store ==>
          && HeldAt(s.history, id, s.store[id].doc, s.store[id].loadedAt)
          && s.store[id].loadedAt <= s.now && s.store[id].expires.Some?
          && s.store[id].expires.value <= s.store[id].loadedAt + delay + s.ttl)
    && (forall r :: r in s.loading ==>
          HeldAt(s.history, s.loading[r].id, s.loading[r].doc, s.loading[r].loadedAt) && s.loading[r].loadedAt <= s.now)
  }

  /** No reader takes longer than the delay from its load to its store. */
  predicate Prompt(s: State, steps: seq<Step>, delay: nat)
  {
    steps != [] ==>
      var before, step := Run(s, steps[..|steps| - 1]), steps[|steps| - 1];
      && Prompt(s, steps[..|steps| - 1], delay)
      && (step.Finish? && step.reader in before.loading ==> before.now <= before.loading[step.reader].loadedAt + delay)
  }

  lemma SoundStep(s: State, step: Step, delay: nat)
    requires Sound(s, delay)
    requires step.Finish? && step.reader in s.loading ==> s.now <= s.loading[step.reader].loadedAt + delay
    ensures Sound(Apply(s, step), delay)
  {
    hide HeldAt;
    match step
    case Write(id, doc) =>
      var v := Apply(s, step).history[|s.history|];
      forall i | i in s.store {
        HeldStays(s.history, v, i, s.store[i].doc, s.store[i].loadedAt);
      }
      forall r | r in s.loading {
        HeldStays(s.history, v, s.loading[r].id, s.loading[r].doc, s.loading[r].loadedAt);
      }
    case Begin(r, id) =>
      if id in s.docs {
        HeldNow(s, id);
      }
    case _ =>
  }

  lemma {:induction false} SoundRun(s: State, steps: seq<Step>, delay: nat)
    requires Sound(s, delay) && Prompt(s, steps, delay)
    ensures Sound(Run(s, steps), delay)
  {
    hide Apply, Sound;
    if steps != [] {
      SoundRun(s, steps[..|steps| - 1], delay);
      SoundStep(Run(s, steps[..|steps| - 1]), steps[|steps| - 1], delay);
    }
  }

  /**
   * Whatever is written, with or without invalidation, and whatever fails: a cached read returns a document the
   * database held no longer ago than the time to live plus the delay between a load and its store.
   */
  lemma ReadsAreFresh(docs: map<string, Doc>, setting: Option<int>, steps: seq<Step>, delay: nat, id: string)
    requires Prompt(Start(docs, setting), steps, delay)
    requires Get(Run(Start(docs, setting), steps), id).Some?
    ensures var s := Run(Start(docs, setting), steps);
            exists t: nat :: t <= s.now < t + delay + s.ttl && HeldAt(s.history, id, Get(s, id).value, t)
  {
    SoundRun(Start(docs, setting), steps, delay);
    var s := Run(Start(docs, setting), steps);
    assert s.store[id].loadedAt <= s.now < s.store[id].loadedAt + delay + s.ttl;
  }

  /**
   * Why `EventTtl` turns a configured zero into the default: an entry stored
   * with a time to live of zero would never expire, and be arbitrarily old.
   */
  lemma ZeroTtlHasNoBound(id: string, first: Doc, second: Doc, age: nat)
    requires first != second
    ensures var s := State(map[id := first], map[], map[], true, 0, 0, [Version(0, map[id := first])]);
            var t := Apply(Apply(Apply(Apply(s, Begin(0, id)), Finish(0, true)), Write(id, Some(second))), Tick(age));
            Get(t, id) == Some(first) && forall at: nat :: HeldAt(t.history, id, first, at) ==> at + age <= t.now
  {
  }

  // ---- when the cache is the database ----

  ghost predicate Coherent(s: State)
  {
    forall id :: id in s.store ==> id in s.docs && s.store[id].doc == s.docs[id]
  }

  /** Storing what was loaded keeps the cache right exactly if the database still holds it. */
  lemma FinishKeepsCoherentIff(s: State, reader: nat)
    requires Coherent(s) && s.up && s.ttl >= 0 && reader in s.loading
    ensures Coherent(Apply(s, Finish(reader, true)))
            <==> s.loading[reader].id in s.docs && s.docs[s.loading[reader].id] == s.loading[reader].doc
  {
    var l := s.loading[reader];
    assert l.id in Apply(s, Finish(reader, true)).store;
  }

  /** A write and its invalidation between the two halves of a load leave the old document in the cache. */
  lemma LoadRacesWithWrite(s: State, reader: nat, id: string, doc: Doc)
    requires s.up && s.ttl > 0 && reader !in s.loading && Get(s, id).None? && id in s.docs && s.docs[id] != doc
    ensures var t := Apply(Apply(Apply(Apply(s, Begin(reader, id)), Write(id, Some(doc))), Invalidate(id, true)),
                           Finish(reader, true));
            Get(t, id) == Some(s.docs[id]) && t.docs[id] == doc
  {
  }

  /** Uninterrupted reads, writes that always invalidate, no outage. */
  predicate Calm(steps: seq<Step>)
  {
    var n := |steps|;
    || n == 0
    || (steps[n - 1].Tick? && Calm(steps[..n - 1]))
    || (n >= 2 && steps[n - 2].Begin? && steps[n - 1].Finish? && steps[n - 2].reader == steps[n - 1].reader
        && Calm(steps[..n - 2]))
    || (n >= 2 && steps[n - 2].Write? && steps[n - 1] == Invalidate(steps[n - 2].id, true) && Calm(steps[..n - 2]))
  }

  /** Then every entry is what the database holds. */
  lemma {:induction false} CalmCacheIsDatabase(s: State, steps: seq<Step>)
    requires Coherent(s) && s.up && s.loading == map[] && Calm(steps)
    ensures var t := Run(s, steps); Coherent(t) && t.up && t.loading == map[]
    ensures forall id :: Get(Run(s, steps), id).Some? ==>
              id in Run(s, steps).docs && Get(Run(s, steps), id).value == Run(s, steps).docs[id]
  {
    var n := |steps|;
    if n == 0 {
    } else if steps[n - 1].Tick? && Calm(steps[..n - 1]) {
      CalmCacheIsDatabase(s, steps[..n - 1]);
    } else {
      assert steps[..n - 1][..n - 2] == steps[..n - 2];
      CalmCacheIsDatabase(s, steps[..n - 2]);
      CalmPair(Run(s, steps[..n - 2]), steps[n - 2], steps[n - 1]);
    }
  }

  lemma CalmPair(s: State, first: Step, second: Step)
    requires Coherent(s) && s.up && s.loading == map[]
    requires (first.Begin? && second.Finish? && first.reader == second.reader)
             || (first.Write? && second == Invalidate(first.id, true))
    ensures var t := Apply(Apply(s, first), second); Coherent(t) && t.up && t.loading == map[]
  {
  }

  // ---- how long an entry is served ----

  /** Without a setting, or with zero, ten minutes; otherwise the setting, where a negative one stores nothing. */
  predicate Serves(setting: Option<int>, seconds: nat)
  {
    seconds < if setting == None || setting == Some(0) then 600 else setting.value
  }

  /** What a read has stored is served for the time to live and no longer. */
  lemma ServedForTtl(docs: map<string, Doc>, setting: Option<int>, reader: nat, id: string, seconds: nat)
    requires id in docs
    ensures var s := Apply(Apply(Start(docs, setting), Begin(reader, id)), Finish(reader, true));
            Get(Apply(s, Tick(seconds)), id) == if Serves(setting, seconds) then Some(docs[id]) else None
  {
  }

  /** An update makes the next reads miss exactly if Redis is up and deletes; other entries stay. */
  lemma UpdateDropsIff(s: State, id: string, doc: Doc, works: bool, other: string)
    requires s.up && Get(s, id).Some?
    ensures var t := Apply(Apply(s, Write(id, Some(doc))), Invalidate(id, works));
            && t.docs == s.docs[id := doc]
            && (Get(t, id).None? <==> works) && (!works ==> Get(t, id) == Get(s, id))
            && (other != id ==> Get(t, other) == Get(s, other))
  {
  }

  /** While Redis is down nothing is served, stored or dropped. */
  lemma DownChangesNothing(s: State, reader: nat, id: string, works: bool)
    requires !s.up
    ensures Get(s, id) == None && Apply(s, Invalidate(id, works)).store == s.store
    ensures Apply(s, Finish(reader, works)).store == s.store
  {
  }
}
