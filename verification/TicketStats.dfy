/**
 * Ticket statistics as a materialised view of the ticket event log. The
 * processor replaces the rows of a block range and rebuilds the statistics of
 * the events it touched.
 */
module TicketStats {
  import opened Options

  datatype Name = MintedBatch | Purchased | Used | Expired | Refunded | Other

  /** The event id is empty for logs that belong to no event; a price may fail to parse. */
  datatype LogRow = LogRow(
    contract: string, block: int, txHash: string, logIndex: int,
    name: Name, eventId: string, ticketIds: Option<seq<string>>, priceWei: Option<int>)

  datatype Stats = Stats(minted: nat, sold: nat, used: nat, expired: nat, refunded: nat, revenue: int)

  const NO_STATS := Stats(0, 0, 0, 0, 0, 0)

  datatype Key = Key(contract: string, eventId: string)

  predicate Matches(r: LogRow, k: Key, n: Name)
  {
    r.contract == k.contract && r.eventId == k.eventId && r.name == n
  }

  function Count(log: seq<LogRow>, k: Key, n: Name): nat
  {
    if log == [] then 0
    else Count(log[..|log| - 1], k, n) + if Matches(log[|log| - 1], k, n) then 1 else 0
  }

  function TokensIn(r: LogRow): nat
  {
    if r.ticketIds.Some? then |r.ticketIds.value| else 0
  }

  function PriceOf(r: LogRow): int
  {
    if r.priceWei.Some? then r.priceWei.value else 0
  }

  function Tokens(log: seq<LogRow>, k: Key): nat
  {
    if log == [] then 0
    else Tokens(log[..|log| - 1], k) + if Matches(log[|log| - 1], k, MintedBatch) then TokensIn(log[|log| - 1]) else 0
  }

  function Revenue(log: seq<LogRow>, k: Key): int
  {
    if log == [] then 0
    else Revenue(log[..|log| - 1], k) + if Matches(log[|log| - 1], k, Purchased) then PriceOf(log[|log| - 1]) else 0
  }

  /** The full recount that defines the view. */
  function Recount(log: seq<LogRow>, k: Key): Stats
  {
    Stats(Tokens(log, k), Count(log, k, Purchased), Count(log, k, Used), Count(log, k, Expired),
          Count(log, k, Refunded), Revenue(log, k))
  }

  function StatsOf(stats: map<Key, Stats>, k: Key): Stats
  {
    if k in stats then stats[k] else NO_STATS
  }

  /** Every event's stored statistics are its recount; an event without a row counts as zero. */
  ghost predicate ViewExact(log: seq<LogRow>, stats: map<Key, Stats>)
  {
    forall k: Key :: k.eventId != "" ==> StatsOf(stats, k) == Recount(log, k)
  }

  // ---- log operations ----

  predicate InRange(r: LogRow, c: string, from: int, to: int)
  {
    r.contract == c && from <= r.block <= to
  }

  function Outside(log: seq<LogRow>, c: string, from: int, to: int): seq<LogRow>
  {
    if log == [] then []
    else Outside(log[..|log| - 1], c, from, to) + if InRange(log[|log| - 1], c, from, to) then [] else [log[|log| - 1]]
  }

  function IdsInRange(log: seq<LogRow>, c: string, from: int, to: int): set<string>
  {
    set r | r in log && InRange(r, c, from, to) && r.eventId != "" :: r.eventId
  }

  function IdsOf(docs: seq<LogRow>): set<string>
  {
    set r | r in docs && r.eventId != "" :: r.eventId
  }

  predicate SameKey(a: LogRow, b: LogRow)
  {
    a.contract == b.contract && a.txHash == b.txHash && a.logIndex == b.logIndex
  }

  predicate Taken(log: seq<LogRow>, d: LogRow)
  {
    exists r :: r in log && SameKey(r, d)
  }

  /** Unordered insertion: every row whose unique key is free goes in. */
  function InsertFree(log: seq<LogRow>, docs: seq<LogRow>): seq<LogRow>
  {
    if docs == [] then log
    else
      var l := InsertFree(log, docs[..|docs| - 1]);
      if Taken(l, docs[|docs| - 1]) then l else l + [docs[|docs| - 1]]
  }

  /** Some row is refused, so the whole insertion reports an error. */
  predicate Clash(log: seq<LogRow>, docs: seq<LogRow>)
  {
    docs != [] &&
    var before := docs[..|docs| - 1];
    Clash(log, before) || Taken(InsertFree(log, before), docs[|docs| - 1])
  }

  // ---- one chunk ----

  datatype Outcome = Done | DuplicateKey | Interrupted

  /** Where the process stops: after a part of the insertion, none included, or after some events are rebuilt. */
  datatype Stop = Never | Inserting(part: seq<LogRow>) | Rebuilding(finished: set<string>)

  function Sent(docs: seq<LogRow>, stop: Stop): seq<LogRow>
  {
    if stop.Inserting? then stop.part else docs
  }

  function ChunkOutcome(log: seq<LogRow>, c: string, from: int, to: int, docs: seq<LogRow>, stop: Stop): Outcome
  {
    if stop.Inserting? then Interrupted
    else if Clash(Outside(log, c, from, to), docs) then DuplicateKey
    else if stop.Rebuilding? then Interrupted
    else Done
  }

  function ChunkLog(log: seq<LogRow>, c: string, from: int, to: int, docs: seq<LogRow>): seq<LogRow>
  {
    InsertFree(Outside(log, c, from, to), docs)
  }

  function KeysFor(c: string, ids: set<string>): set<Key>
  {
    set e | e in ids && e != "" :: Key(c, e)
  }

  function Rebuilt(log: seq<LogRow>, stats: map<Key, Stats>, c: string, ids: set<string>): map<Key, Stats>
  {
    stats + map k | k in KeysFor(c, ids) :: Recount(log, k)
  }

  function Touched(log: seq<LogRow>, c: string, from: int, to: int, docs: seq<LogRow>): set<string>
  {
    IdsInRange(log, c, from, to) + IdsOf(docs)
  }

  /** The touched events that are rebuilt before the chunk ends. */
  function Finished(log: seq<LogRow>, c: string, from: int, to: int, docs: seq<LogRow>, stop: Stop): set<string>
  {
    match ChunkOutcome(log, c, from, to, docs, stop)
    case Done => Touched(log, c, from, to, docs)
    case DuplicateKey => {}
    case Interrupted => if stop.Rebuilding? then Touched(log, c, from, to, docs) * stop.finished else {}
  }

  function ChunkStats(log: seq<LogRow>, stats: map<Key, Stats>,
          c: string, from: int, to: int, docs: seq<LogRow>, stop: Stop): map<Key, Stats>
  {
    Rebuilt(ChunkLog(log, c, from, to, Sent(docs, stop)), stats, c, Finished(log, c, from, to, docs, stop))
  }

  // ---- what the counters mean ----

  predicate IsRow(r: LogRow, contract: string, eventId: string, name: Name)
  {
    r.contract == contract && r.eventId == eventId && r.name == name
  }

  /** The places of the rows of one event and name. */
  function RowsOf(log: seq<LogRow>, contract: string, eventId: string, name: Name): set<int>
  {
    set i | 0 <= i < |log| && IsRow(log[i], contract, eventId, name)
  }

  lemma InRowsOf(log: seq<LogRow>, contract: string, eventId: string, name: Name, i: int)
    requires 0 <= i < |log| - 1
    ensures i in RowsOf(log, contract, eventId, name) <==> i in RowsOf(log[..|log| - 1], contract, eventId, name)
  {
    assert log[..|log| - 1][i] == log[i];
  }

  lemma LastRowOf(log: seq<LogRow>, contract: string, eventId: string, name: Name)
    requires log != []
    ensures var last := |log| - 1;
            RowsOf(log, contract, eventId, name)
            == RowsOf(log[..last], contract, eventId, name)
               + if IsRow(log[last], contract, eventId, name) then {last} else {}
  {
    forall i | 0 <= i < |log| - 1
      ensures i in RowsOf(log, contract, eventId, name) <==> i in RowsOf(log[..|log| - 1], contract, eventId, name)
    {
      InRowsOf(log, contract, eventId, name, i);
    }
  }

  lemma {:induction false} RowsCounted(log: seq<LogRow>, k: Key, name: Name)
    ensures Count(log, k, name) == |RowsOf(log, k.contract, k.eventId, name)|
  {
    if log != [] {
      var last := |log| - 1;
      RowsCounted(log[..last], k, name);
      LastRowOf(log, k.contract, k.eventId, name);
      assert last !in RowsOf(log[..last], k.contract, k.eventId, name);
      hide RowsOf;
    }
  }

  /**
   * One more row changes the statistics of its own event only, and of those the
   * counter of its name: by one, or by its number of tickets if it is a mint;
   * a sale adds its price to the revenue.
   */
  lemma OneMoreRow(log: seq<LogRow>, r: LogRow, k: Key)
    ensures Recount([], k) == Stats(0, 0, 0, 0, 0, 0)
    ensures var before := Recount(log, k);
            Recount(log + [r], k)
            == if r.contract != k.contract || r.eventId != k.eventId then before
               else
                 match r.name
                 case MintedBatch =>
                   before.(minted := before.minted + if r.ticketIds.Some? then |r.ticketIds.value| else 0)
                 case Purchased =>
                   before.(sold := before.sold + 1,
                           revenue := before.revenue + if r.priceWei.Some? then r.priceWei.value else 0)
                 case Used => before.(used := before.used + 1)
                 case Expired => before.(expired := before.expired + 1)
                 case Refunded => before.(refunded := before.refunded + 1)
                 case Other => before
  {
    assert (log + [r])[..|log|] == log;
  }

  // ---- the unique index ----

  /** Contract, transaction and position of a log identify its row. */
  function IndexOf(r: LogRow): (string, string, int)
  {
    (r.contract, r.txHash, r.logIndex)
  }

  ghost predicate Indexed(log: seq<LogRow>, key: (string, string, int))
  {
    exists r :: r in log && IndexOf(r) == key
  }

  ghost predicate UniquelyIndexed(log: seq<LogRow>)
  {
    forall i, j :: 0 <= i < j < |log| ==> IndexOf(log[i]) != IndexOf(log[j])
  }

  lemma TakenIsIndexed(log: seq<LogRow>, d: LogRow)
    ensures Taken(log, d) <==> Indexed(log, IndexOf(d))
  {
    if r :| r in log && IndexOf(r) == IndexOf(d) {
      assert SameKey(r, d);
    }
  }

  /**
   * After an insertion every key that was in the log or is in the documents is
   * there, exactly once, and the first document to come with a key is the one
   * that got it.
   */
  lemma {:induction false} InsertionKeepsIndex(log: seq<LogRow>, docs: seq<LogRow>, key: (string, string, int))
    requires UniquelyIndexed(log)
    ensures UniquelyIndexed(InsertFree(log, docs)) && log <= InsertFree(log, docs)
    ensures Indexed(InsertFree(log, docs), key) <==> Indexed(log, key) || Indexed(docs, key)
  {
    hide Taken;
    if docs != [] {
      var n := |docs| - 1;
      InsertionKeepsIndex(log, docs[..n], key);
      InsertionKeepsIndex(log, docs[..n], IndexOf(docs[n]));
      TakenIsIndexed(InsertFree(log, docs[..n]), docs[n]);
      assert docs == docs[..n] + [docs[n]];
      IndexedAppend(docs[..n], docs[n], key);
      IndexedAppend(InsertFree(log, docs[..n]), docs[n], key);
      if !Taken(InsertFree(log, docs[..n]), docs[n]) {
        AppendUnindexed(InsertFree(log, docs[..n]), docs[n]);
      }
    }
  }

  lemma IndexedAppend(log: seq<LogRow>, r: LogRow, key: (string, string, int))
    ensures Indexed(log + [r], key) <==> Indexed(log, key) || IndexOf(r) == key
  {
    assert r in log + [r];
    if x :| x in log && IndexOf(x) == key {
      assert x in log + [r];
    }
  }

  lemma AppendUnindexed(log: seq<LogRow>, r: LogRow)
    requires UniquelyIndexed(log) && !Indexed(log, IndexOf(r))
    ensures UniquelyIndexed(log + [r])
  {
    forall i | 0 <= i < |log|
      ensures IndexOf((log + [r])[i]) != IndexOf(r)
    {
      assert log[i] in log;
    }
  }

  /** An insertion reports an error exactly if some document's key is in the log or among the documents before it. */
  lemma {:induction false} InsertionFailsIff(log: seq<LogRow>, docs: seq<LogRow>)
    requires UniquelyIndexed(log)
    ensures Clash(log, docs)
            <==> exists i :: 0 <= i < |docs| && (Indexed(log, IndexOf(docs[i])) || Indexed(docs[..i], IndexOf(docs[i])))
  {
    hide Taken, InsertFree, Indexed;
    if docs != [] {
      var n := |docs| - 1;
      InsertionFailsIff(log, docs[..n]);
      InsertionKeepsIndex(log, docs[..n], IndexOf(docs[n]));
      TakenIsIndexed(InsertFree(log, docs[..n]), docs[n]);
      forall i | 0 <= i < n
        ensures docs[..n][i] == docs[i] && docs[..n][..i] == docs[..i]
      {
      }
    }
  }

  // ---- the store ----

  class TicketStore {
    var log: seq<LogRow>
    var stats: map<Key, Stats>

    method CountDocuments(k: Key, n: Name) returns (count: nat)
      ensures count == Count(log, k, n)
    {
      count := 0;
      for i := 0 to |log|
        invariant count == Count(log[..i], k, n)
      {
        assert log[..i + 1][..i] == log[..i];
        if Matches(log[i], k, n) {
          count := count + 1;
        }
      }
      assert log[..|log|] == log;
    }

    method SumTokensAndRevenue(k: Key) returns (tokens: nat, revenue: int)
      ensures tokens == Tokens(log, k) && revenue == Revenue(log, k)
    {
      tokens, revenue := 0, 0;
      for i := 0 to |log|
        invariant tokens == Tokens(log[..i], k) && revenue == Revenue(log[..i], k)
      {
        assert log[..i + 1][..i] == log[..i];
        if Matches(log[i], k, MintedBatch) {
          tokens := tokens + TokensIn(log[i]);
        }
        if Matches(log[i], k, Purchased) {
          revenue := revenue + PriceOf(log[i]);
        }
      }
      assert log[..|log|] == log;
    }

    /** The queries and folds for one event: the counters are the numbers of its rows of each name. */
    method RecountFromLog(k: Key) returns (s: Stats)
      ensures s == Recount(log, k)
      ensures s.sold == |RowsOf(log, k.contract, k.eventId, Purchased)|
      ensures s.used == |RowsOf(log, k.contract, k.eventId, Used)|
      ensures s.expired == |RowsOf(log, k.contract, k.eventId, Expired)|
      ensures s.refunded == |RowsOf(log, k.contract, k.eventId, Refunded)|
    {
      hide Tokens, Revenue, Count, RowsOf;
      RowsCounted(log, k, Purchased);
      RowsCounted(log, k, Used);
      RowsCounted(log, k, Expired);
      RowsCounted(log, k, Refunded);
      var tokens, revenue := SumTokensAndRevenue(k);
      var sold := CountDocuments(k, Purchased);
      var used := CountDocuments(k, Used);
      var expired := CountDocuments(k, Expired);
      var refunded := CountDocuments(k, Refunded);
      s := Stats(tokens, sold, used, expired, refunded, revenue);
    }

    method RebuildForEventIds(c: string, ids: set<string>)
      modifies this`stats
      ensures stats == Rebuilt(log, old(stats), c, ids)
    {
      hide Recount, RowsOf;
      var keys := KeysFor(c, ids);
      var todo := keys;
      while todo != {}
        invariant todo <= keys
        invariant stats == old(stats) + map k | k in keys - todo :: Recount(log, k)
        decreases todo
      {
        var k :| k in todo;
        var s := RecountFromLog(k);
        stats := stats[k := s];
        todo := todo - {k};
      }
    }

    method DeleteInRange(c: string, from: int, to: int)
      modifies this`log
      ensures log == Outside(old(log), c, from, to)
    {
      var kept := [];
      for i := 0 to |log|
        invariant kept == Outside(log[..i], c, from, to)
      {
        assert log[..i + 1][..i] == log[..i];
        if !InRange(log[i], c, from, to) {
          kept := kept + [log[i]];
        }
      }
      assert log[..|log|] == log;
      log := kept;
    }

    method InsertMany(docs: seq<LogRow>) returns (ok: bool)
      modifies this`log
      ensures log == InsertFree(old(log), docs)
      ensures ok <==> !Clash(old(log), docs)
    {
      ok := true;
      for i := 0 to |docs|
        invariant log == InsertFree(old(log), docs[..i])
        invariant ok <==> !Clash(old(log), docs[..i])
      {
        assert docs[..i + 1][..i] == docs[..i];
        if Taken(log, docs[i]) {
          ok := false;
        } else {
          log := log + [docs[i]];
        }
      }
      assert docs[..|docs|] == docs;
    }

    /** Read old ids, delete, insert, rebuild; an error ends the chunk, and so may a stop. */
    method ProcessChunk(c: string, from: int, to: int, docs: seq<LogRow>, stop: Stop) returns (outcome: Outcome)
      modifies this
      ensures outcome == ChunkOutcome(old(log), c, from, to, docs, stop)
      ensures log == ChunkLog(old(log), c, from, to, Sent(docs, stop))
      ensures stats == ChunkStats(old(log), old(stats), c, from, to, docs, stop)
    {
      hide Recount, Clash, Outside, InsertFree;
      var ids := IdsInRange(log, c, from, to);
      DeleteInRange(c, from, to);
      var ok := InsertMany(Sent(docs, stop));
      if stop.Inserting? {
        return Interrupted;
      }
      if !ok {
        return DuplicateKey;
      }
      if stop.Rebuilding? {
        RebuildForEventIds(c, (ids + IdsOf(docs)) * stop.finished);
        return Interrupted;
      }
      RebuildForEventIds(c, ids + IdsOf(docs));
      return Done;
    }
  }

  // ---- exactness ----

  /** One more row changes only the recount of its own event. */
  lemma RecountAppend(a: seq<LogRow>, b: seq<LogRow>, r: LogRow, k: Key)
    ensures k != Key(r.contract, r.eventId) ==> Recount(a + [r], k) == Recount(a, k)
    ensures Recount(a, k) == Recount(b, k) ==> Recount(a + [r], k) == Recount(b + [r], k)
  {
    assert (a + [r])[..|a|] == a && (b + [r])[..|b|] == b;
  }

  lemma {:induction false} RecountOutside(log: seq<LogRow>, c: string, from: int, to: int, k: Key)
    requires k.eventId != "" && (k.contract == c ==> k.eventId !in IdsInRange(log, c, from, to))
    ensures Recount(Outside(log, c, from, to), k) == Recount(log, k)
  {
    hide Recount;
    if log != [] {
      var n := |log| - 1;
      assert log == log[..n] + [log[n]];
      assert log[n] in log;
      assert IdsInRange(log[..n], c, from, to) <= IdsInRange(log, c, from, to);
      RecountOutside(log[..n], c, from, to, k);
      RecountAppend(log[..n], Outside(log[..n], c, from, to), log[n], k);
      assert Outside(log[..n], c, from, to) + [] == Outside(log[..n], c, from, to);
    }
  }

  lemma {:induction false} RecountInsert(log: seq<LogRow>, docs: seq<LogRow>, c: string, k: Key)
    requires forall d :: d in docs ==> d.contract == c
    requires k.eventId != "" && (k.contract == c ==> k.eventId !in IdsOf(docs))
    ensures Recount(InsertFree(log, docs), k) == Recount(log, k)
  {
    hide Recount;
    if docs != [] {
      var n := |docs| - 1;
      assert docs == docs[..n] + [docs[n]];
      assert docs[n] in docs;
      assert IdsOf(docs[..n]) <= IdsOf(docs);
      RecountInsert(log, docs[..n], c, k);
      var l := InsertFree(log, docs[..n]);
      RecountAppend(l, l, docs[n], k);
    }
  }

  lemma UntouchedRecount(log: seq<LogRow>, c: string, from: int, to: int, docs: seq<LogRow>, k: Key)
    requires forall d :: d in docs ==> d.contract == c
    requires k.eventId != ""
    requires k.contract == c ==> k.eventId !in Touched(log, c, from, to, docs)
    ensures Recount(ChunkLog(log, c, from, to, docs), k) == Recount(log, k)
  {
    RecountOutside(log, c, from, to, k);
    RecountInsert(Outside(log, c, from, to), docs, c, k);
  }

  /** Replacing any block range by any rows and rebuilding only the touched events keeps the view exact. */
  lemma ChunkKeepsViewExact(log: seq<LogRow>, stats: map<Key, Stats>, c: string, from: int, to: int, docs: seq<LogRow>)
    requires ViewExact(log, stats) && forall d :: d in docs ==> d.contract == c
    requires ChunkOutcome(log, c, from, to, docs, Never) == Done
    ensures ViewExact(ChunkLog(log, c, from, to, docs), ChunkStats(log, stats, c, from, to, docs, Never))
  {
    hide Recount, InsertFree, Outside, Clash;
    var log', stats' := ChunkLog(log, c, from, to, docs), ChunkStats(log, stats, c, from, to, docs, Never);
    forall k: Key | k.eventId != ""
      ensures StatsOf(stats', k) == Recount(log', k)
    {
      if k.contract == c && k.eventId in Touched(log, c, from, to, docs) {
        assert k == Key(c, k.eventId);
      } else {
        UntouchedRecount(log, c, from, to, docs, k);
      }
    }
  }

  // ---- what a range contributes ----

  function Canonical(chain: seq<LogRow>, c: string, from: int, to: int): seq<LogRow>
  {
    if chain == [] then []
    else
      Canonical(chain[..|chain| - 1], c, from, to)
      + if InRange(chain[|chain| - 1], c, from, to) then [chain[|chain| - 1]] else []
  }

  function Plus(a: Stats, b: Stats): Stats
  {
    Stats(a.minted + b.minted, a.sold + b.sold, a.used + b.used, a.expired + b.expired, a.refunded + b.refunded,
          a.revenue + b.revenue)
  }

  lemma RecountOneMore(a: seq<LogRow>, r: LogRow, k: Key)
    ensures Recount(a + [r], k) == Plus(Recount(a, k), Recount([r], k))
  {
    assert (a + [r])[..|a|] == a && [r][..0] == [];
    forall n
      ensures Count(a + [r], k, n) == Count(a, k, n) + Count([r], k, n)
    {
      assert Count([r], k, n) == Count([r][..0], k, n) + if Matches(r, k, n) then 1 else 0;
    }
    assert Tokens([r], k) == Tokens([r][..0], k) + if Matches(r, k, MintedBatch) then TokensIn(r) else 0;
    assert Revenue([r], k) == Revenue([r][..0], k) + if Matches(r, k, Purchased) then PriceOf(r) else 0;
  }

  lemma PlusAssociates(a: Stats, b: Stats, c: Stats)
    ensures Plus(Plus(a, b), c) == Plus(a, Plus(b, c)) && Plus(a, NO_STATS) == a
  {
  }

  lemma {:induction false} RecountConcat(a: seq<LogRow>, b: seq<LogRow>, k: Key)
    ensures Recount(a + b, k) == Plus(Recount(a, k), Recount(b, k))
  {
    if b == [] {
      assert a + b == a && Recount(b, k) == NO_STATS;
    } else {
      hide Recount, Plus;
      var init, last := b[..|b| - 1], b[|b| - 1];
      assert a + b == (a + init) + [last] && b == init + [last];
      RecountConcat(a, init, k);
      RecountOneMore(a + init, last, k);
      RecountOneMore(init, last, k);
      PlusAssociates(Recount(a, k), Recount(init, k), Recount([last], k));
    }
  }

  /** An event's statistics are what the range gives it plus what the rest gives it. */
  lemma {:induction false} RecountSplits(log: seq<LogRow>, c: string, from: int, to: int, k: Key)
    ensures Recount(log, k) == Plus(Recount(Outside(log, c, from, to), k), Recount(Canonical(log, c, from, to), k))
  {
    hide Recount;
    if log == [] {
      RecountConcat([], [], k);
      assert [] + [] == log;
    } else {
      var init, last := log[..|log| - 1], log[|log| - 1];
      assert log == init + [last];
      RecountSplits(init, c, from, to, k);
      RecountConcat(init, [last], k);
      RecountConcat(Outside(init, c, from, to), [last], k);
      RecountConcat(Canonical(init, c, from, to), [last], k);
      assert Outside(init, c, from, to) + [] == Outside(init, c, from, to);
      assert Canonical(init, c, from, to) + [] == Canonical(init, c, from, to);
    }
  }

  /** The rows of an insertion that find their key free. */
  function Inserted(log: seq<LogRow>, docs: seq<LogRow>): seq<LogRow>
  {
    if docs == [] then []
    else
      var before, last := docs[..|docs| - 1], docs[|docs| - 1];
      Inserted(log, before) + if Taken(InsertFree(log, before), last) then [] else [last]
  }

  lemma {:induction false} InsertedAreAppended(log: seq<LogRow>, docs: seq<LogRow>)
    ensures InsertFree(log, docs) == log + Inserted(log, docs)
    ensures !Clash(log, docs) ==> Inserted(log, docs) == docs
  {
    hide Taken;
    if docs != [] {
      InsertedAreAppended(log, docs[..|docs| - 1]);
      assert docs == docs[..|docs| - 1] + [docs[|docs| - 1]];
    }
  }

  /** A chunk changes an event's recount by what its new rows give it less what its deleted rows gave it. */
  lemma ChunkRecount(log: seq<LogRow>, c: string, from: int, to: int, docs: seq<LogRow>, k: Key)
    ensures Recount(ChunkLog(log, c, from, to, docs), k) == Recount(log, k)
            <==> Recount(Inserted(Outside(log, c, from, to), docs), k) == Recount(Canonical(log, c, from, to), k)
  {
    hide Recount;
    var o := Outside(log, c, from, to);
    RecountSplits(log, c, from, to, k);
    InsertedAreAppended(o, docs);
    RecountConcat(o, Inserted(o, docs), k);
  }

  /**
   * Rows replaced, and some events rebuilt: the view is exact exactly when, for
   * every other touched event, the rows that went in count the same as the
   * rows that were deleted.
   */
  lemma ReplacedIsExactIff(log: seq<LogRow>, stats: map<Key, Stats>,
          c: string, from: int, to: int, docs: seq<LogRow>, finished: set<string>)
    requires ViewExact(log, stats) && forall d :: d in docs ==> d.contract == c
    ensures ViewExact(ChunkLog(log, c, from, to, docs), Rebuilt(ChunkLog(log, c, from, to, docs), stats, c, finished))
            <==> forall e :: e in Touched(log, c, from, to, docs) - finished ==>
                   Recount(Inserted(Outside(log, c, from, to), docs), Key(c, e))
                   == Recount(Canonical(log, c, from, to), Key(c, e))
  {
    hide Recount, InsertFree, Outside, Canonical, Inserted;
    var log' := ChunkLog(log, c, from, to, docs);
    var stats' := Rebuilt(log', stats, c, finished);
    forall k: Key | k.eventId != ""
      ensures StatsOf(stats', k)
              == if k.contract == c && k.eventId in finished then Recount(log', k) else Recount(log, k)
      ensures !(k.contract == c && k.eventId in Touched(log, c, from, to, docs)) ==> Recount(log', k) == Recount(log, k)
      ensures k.contract == c ==> k == Key(c, k.eventId)
    {
      assert StatsOf(stats, k) == Recount(log, k);
      if !(k.contract == c && k.eventId in Touched(log, c, from, to, docs)) {
        UntouchedRecount(log, c, from, to, docs, k);
      }
    }
    forall e | e in Touched(log, c, from, to, docs) - finished
      ensures Key(c, e).eventId != ""
      ensures Recount(log', Key(c, e)) == StatsOf(stats', Key(c, e))
              <==> Recount(Inserted(Outside(log, c, from, to), docs), Key(c, e))
                   == Recount(Canonical(log, c, from, to), Key(c, e))
    {
      ChunkRecount(log, c, from, to, docs, Key(c, e));
    }
  }

  /** So after a chunk that reports a duplicate, or stops at any point. */
  lemma AbortedChunkIsExactIff(log: seq<LogRow>, stats: map<Key, Stats>,
          c: string, from: int, to: int, docs: seq<LogRow>, stop: Stop)
    requires ViewExact(log, stats) && forall d :: d in docs + Sent(docs, stop) ==> d.contract == c
    requires ChunkOutcome(log, c, from, to, docs, stop) != Done
    ensures var sent := Sent(docs, stop);
            ViewExact(ChunkLog(log, c, from, to, sent), ChunkStats(log, stats, c, from, to, docs, stop))
            <==> forall e :: e in Touched(log, c, from, to, sent) - Finished(log, c, from, to, docs, stop) ==>
                   Recount(Inserted(Outside(log, c, from, to), sent), Key(c, e))
                   == Recount(Canonical(log, c, from, to), Key(c, e))
  {
    ReplacedIsExactIff(log, stats, c, from, to, Sent(docs, stop), Finished(log, c, from, to, docs, stop));
  }

  // ---- retries ----

  ghost predicate AllInRange(docs: seq<LogRow>, c: string, from: int, to: int)
  {
    forall d :: d in docs ==> InRange(d, c, from, to)
  }

  lemma {:induction false} OutsideHas(log: seq<LogRow>, c: string, from: int, to: int, r: LogRow)
    ensures r in Outside(log, c, from, to) <==> r in log && !InRange(r, c, from, to)
  {
    if log != [] {
      assert log == log[..|log| - 1] + [log[|log| - 1]];
      OutsideHas(log[..|log| - 1], c, from, to, r);
    }
  }

  lemma {:induction false} OutsideIsOutside(log: seq<LogRow>, c: string, from: int, to: int)
    requires forall r :: r in log ==> !InRange(r, c, from, to)
    ensures Outside(log, c, from, to) == log
  {
    if log != [] {
      assert log == log[..|log| - 1] + [log[|log| - 1]];
      assert log[|log| - 1] in log;
      OutsideIsOutside(log[..|log| - 1], c, from, to);
    }
  }

  lemma {:induction false} OutsideAfterInsert(log: seq<LogRow>, docs: seq<LogRow>, c: string, from: int, to: int)
    requires AllInRange(docs, c, from, to) && Outside(log, c, from, to) == log
    ensures Outside(InsertFree(log, docs), c, from, to) == log
  {
    if docs != [] {
      var n := |docs| - 1;
      assert docs == docs[..n] + [docs[n]];
      assert docs[n] in docs;
      OutsideAfterInsert(log, docs[..n], c, from, to);
      var l := InsertFree(log, docs[..n]);
      assert (l + [docs[n]])[..|l|] == l;
      assert log + [] == log;
    }
  }

  lemma ChunkOutside(log: seq<LogRow>, c: string, from: int, to: int, docs: seq<LogRow>)
    requires AllInRange(docs, c, from, to)
    ensures Outside(ChunkLog(log, c, from, to, docs), c, from, to) == Outside(log, c, from, to)
  {
    var o := Outside(log, c, from, to);
    forall r | r in o
      ensures !InRange(r, c, from, to)
    {
      OutsideHas(log, c, from, to, r);
    }
    OutsideIsOutside(o, c, from, to);
    OutsideAfterInsert(o, docs, c, from, to);
  }

  /**
   * A chunk that fails on a duplicate key fails the same way on every retry: a
   * row that survives outside the range keeps the key, for example when a
   * transaction was mined again in an earlier block.
   */
  lemma DuplicateKeyRepeats(log: seq<LogRow>, c: string, from: int, to: int, docs: seq<LogRow>, stop: Stop)
    requires AllInRange(docs, c, from, to)
    requires ChunkOutcome(log, c, from, to, docs, stop) == DuplicateKey
    ensures ChunkOutcome(ChunkLog(log, c, from, to, docs), c, from, to, docs, stop) == DuplicateKey
    ensures ChunkLog(ChunkLog(log, c, from, to, docs), c, from, to, docs) == ChunkLog(log, c, from, to, docs)
  {
    ChunkOutside(log, c, from, to, docs);
  }

  lemma RetryTouches(log: seq<LogRow>, c: string, from: int, to: int, docs: seq<LogRow>)
    requires AllInRange(docs, c, from, to)
    ensures IdsInRange(ChunkLog(log, c, from, to, docs), c, from, to) <= IdsOf(docs)
  {
    var o := Outside(log, c, from, to);
    forall r | r in ChunkLog(log, c, from, to, docs) && InRange(r, c, from, to)
      ensures r in docs
    {
      InsertedFrom(o, docs, r);
      OutsideHas(log, c, from, to, r);
    }
  }

  lemma {:induction false} InsertedFrom(log: seq<LogRow>, docs: seq<LogRow>, r: LogRow)
    requires r in InsertFree(log, docs)
    ensures r in log || r in docs
  {
    if docs != [] {
      assert docs == docs[..|docs| - 1] + [docs[|docs| - 1]];
      if r in InsertFree(log, docs[..|docs| - 1]) {
        InsertedFrom(log, docs[..|docs| - 1], r);
      }
    }
  }

  lemma {:induction false} NoRowsNoStats(rows: seq<LogRow>, k: Key)
    requires forall r :: r in rows ==> r.contract != k.contract || r.eventId != k.eventId
    ensures Recount(rows, k) == NO_STATS
  {
    if rows != [] {
      assert rows == rows[..|rows| - 1] + [rows[|rows| - 1]] && rows[|rows| - 1] in rows;
      NoRowsNoStats(rows[..|rows| - 1], k);
    }
  }

  lemma RebuiltTwice(log: seq<LogRow>, stats: map<Key, Stats>, c: string, a: set<string>, b: set<string>)
    ensures Rebuilt(log, Rebuilt(log, stats, c, a), c, b) == Rebuilt(log, stats, c, b + a)
    ensures Rebuilt(log, stats, c, {}) == stats
  {
    hide Recount;
  }

  /** The later recount stands. */
  lemma RebuiltOver(log: seq<LogRow>, early: seq<LogRow>, stats: map<Key, Stats>, c: string,
          a: set<string>, b: set<string>)
    requires a <= b
    ensures Rebuilt(log, Rebuilt(early, stats, c, a), c, b) == Rebuilt(log, stats, c, b)
  {
    hide Recount;
    assert KeysFor(c, a) <= KeysFor(c, b);
    hide KeysFor;
  }

  ghost predicate Sendable(docs: seq<LogRow>, stop: Stop)
  {
    forall d :: d in Sent(docs, stop) ==> d in docs
  }

  lemma RetryLog(log: seq<LogRow>, c: string, from: int, to: int, docs: seq<LogRow>, stop: Stop)
    requires AllInRange(docs, c, from, to) && Sendable(docs, stop)
    ensures var log1 := ChunkLog(log, c, from, to, Sent(docs, stop));
            && Outside(log1, c, from, to) == Outside(log, c, from, to)
            && ChunkLog(log1, c, from, to, docs) == ChunkLog(log, c, from, to, docs)
            && Touched(log1, c, from, to, docs) == IdsOf(docs)
  {
    hide InsertFree, Outside, Clash;
    var sent := Sent(docs, stop);
    ChunkOutside(log, c, from, to, sent);
    RetryTouches(log, c, from, to, sent);
    assert IdsOf(sent) <= IdsOf(docs);
  }

  /** What a first attempt leaves: the events that it rebuilt are right, and the others as they were. */
  lemma FirstAttempt(log: seq<LogRow>, stats: map<Key, Stats>, c: string, from: int, to: int,
          docs: seq<LogRow>, first: Stop)
    requires !Clash(Outside(log, c, from, to), docs)
    ensures var log' := ChunkLog(log, c, from, to, docs);
            Rebuilt(log', ChunkStats(log, stats, c, from, to, docs, first), c, IdsOf(docs))
            == Rebuilt(log', stats, c, IdsOf(docs) + Finished(log, c, from, to, docs, first))
  {
    hide Recount, ChunkLog, Outside, Clash, Touched, Rebuilt;
    var log' := ChunkLog(log, c, from, to, docs);
    var finished := Finished(log, c, from, to, docs, first);
    if first.Inserting? {
      RebuiltTwice(ChunkLog(log, c, from, to, Sent(docs, first)), stats, c, {}, {});
      assert finished == {} && IdsOf(docs) + {} == IdsOf(docs);
    } else {
      RebuiltTwice(log', stats, c, finished, IdsOf(docs));
    }
  }

  /** A chunk tried again and again, each time up to its stop. */
  function Attempts(log: seq<LogRow>, stats: map<Key, Stats>, c: string, from: int, to: int,
          docs: seq<LogRow>, stops: seq<Stop>): (seq<LogRow>, map<Key, Stats>)
  {
    if stops == [] then (log, stats)
    else
      var (log1, stats1) := Attempts(log, stats, c, from, to, docs, stops[..|stops| - 1]);
      var stop := stops[|stops| - 1];
      (ChunkLog(log1, c, from, to, Sent(docs, stop)), ChunkStats(log1, stats1, c, from, to, docs, stop))
  }

  /** Later attempts see the new rows only, and rebuild none but their events. */
  lemma {:induction false} LaterAttempts(log: seq<LogRow>, stats: map<Key, Stats>, c: string, from: int, to: int,
          docs: seq<LogRow>, stops: seq<Stop>)
    requires AllInRange(docs, c, from, to) && forall stop :: stop in stops ==> Sendable(docs, stop)
    requires Touched(log, c, from, to, docs) == IdsOf(docs)
    ensures var (log1, stats1) := Attempts(log, stats, c, from, to, docs, stops);
            && Outside(log1, c, from, to) == Outside(log, c, from, to)
            && ChunkLog(log1, c, from, to, docs) == ChunkLog(log, c, from, to, docs)
            && Touched(log1, c, from, to, docs) == IdsOf(docs)
            && Rebuilt(ChunkLog(log, c, from, to, docs), stats1, c, IdsOf(docs))
               == Rebuilt(ChunkLog(log, c, from, to, docs), stats, c, IdsOf(docs))
  {
    hide Recount, ChunkLog, Outside, Touched, Rebuilt, Sendable, AllInRange;
    if stops != [] {
      var before, stop := stops[..|stops| - 1], stops[|stops| - 1];
      assert stops == before + [stop];
      LaterAttempts(log, stats, c, from, to, docs, before);
      var (log1, stats1) := Attempts(log, stats, c, from, to, docs, before);
      RetryLog(log1, c, from, to, docs, stop);
      var log2, log' := ChunkLog(log1, c, from, to, Sent(docs, stop)), ChunkLog(log, c, from, to, docs);
      RebuiltOver(log', log2, stats1, c, Finished(log1, c, from, to, docs, stop), IdsOf(docs));
    }
  }

  /** However often it was stopped, the last attempt replaces the same rows, and rebuilds the events of the new ones. */
  lemma RetryRebuilds(log: seq<LogRow>, stats: map<Key, Stats>, c: string, from: int, to: int,
          docs: seq<LogRow>, first: Stop, later: seq<Stop>)
    requires AllInRange(docs, c, from, to) && !Clash(Outside(log, c, from, to), docs)
    requires Sendable(docs, first) && forall stop :: stop in later ==> Sendable(docs, stop)
    ensures var (log1, stats1) := Attempts(log, stats, c, from, to, docs, [first] + later);
            && ChunkOutcome(log1, c, from, to, docs, Never) == Done
            && ChunkLog(log1, c, from, to, docs) == ChunkLog(log, c, from, to, docs)
            && ChunkStats(log1, stats1, c, from, to, docs, Never)
               == Rebuilt(ChunkLog(log, c, from, to, docs), stats, c,
                          IdsOf(docs) + Finished(log, c, from, to, docs, first))
  {
    hide Recount, ChunkLog, Outside, Clash, Touched, Rebuilt, Sendable, AllInRange, Attempts;
    RetryLog(log, c, from, to, docs, first);
    FirstAttempt(log, stats, c, from, to, docs, first);
    FirstThenLater(log, stats, c, from, to, docs, first, later);
    LaterAttempts(ChunkLog(log, c, from, to, Sent(docs, first)), ChunkStats(log, stats, c, from, to, docs, first),
      c, from, to, docs, later);
  }

  lemma {:induction false} FirstThenLater(log: seq<LogRow>, stats: map<Key, Stats>, c: string, from: int, to: int,
          docs: seq<LogRow>, first: Stop, later: seq<Stop>)
    ensures Attempts(log, stats, c, from, to, docs, [first] + later)
            == Attempts(ChunkLog(log, c, from, to, Sent(docs, first)),
                        ChunkStats(log, stats, c, from, to, docs, first), c, from, to, docs, later)
  {
    hide ChunkLog, ChunkStats;
    var stops := [first] + later;
    if later == [] {
      assert stops[..0] == [] && stops[0] == first;
    } else {
      FirstThenLater(log, stats, c, from, to, docs, first, later[..|later| - 1]);
      assert stops[..|stops| - 1] == [first] + later[..|later| - 1];
    }
  }

  /**
   * A chunk stopped any number of times, at any points, and at last tried to
   * the end: the view is exact again exactly when every event that lost its
   * rows in the range, got none back, and was not rebuilt by the first attempt,
   * had nothing counted in them. The other attempts only see the new rows.
   */
  lemma RetryIsExactIff(log: seq<LogRow>, stats: map<Key, Stats>, c: string, from: int, to: int,
          docs: seq<LogRow>, first: Stop, later: seq<Stop>)
    requires ViewExact(log, stats) && AllInRange(docs, c, from, to) && !Clash(Outside(log, c, from, to), docs)
    requires Sendable(docs, first) && forall stop :: stop in later ==> Sendable(docs, stop)
    ensures var (log1, stats1) := Attempts(log, stats, c, from, to, docs, [first] + later);
            ViewExact(ChunkLog(log1, c, from, to, docs), ChunkStats(log1, stats1, c, from, to, docs, Never))
            <==> forall e ::
                   e in IdsInRange(log, c, from, to) - IdsOf(docs) - Finished(log, c, from, to, docs, first) ==>
                   Recount(Canonical(log, c, from, to), Key(c, e)) == NO_STATS
  {
    hide Recount, InsertFree, Outside, Clash, Canonical, Inserted, ChunkStats, ChunkLog, Rebuilt, ViewExact, Finished,
         Attempts, Sendable;
    var finished := Finished(log, c, from, to, docs, first);
    RetryRebuilds(log, stats, c, from, to, docs, first, later);
    ReplacedIsExactIff(log, stats, c, from, to, docs, IdsOf(docs) + finished);
    assert Touched(log, c, from, to, docs) - (IdsOf(docs) + finished)
           == IdsInRange(log, c, from, to) - IdsOf(docs) - finished;
    InsertedAreAppended(Outside(log, c, from, to), docs);
    forall e | e in IdsInRange(log, c, from, to) - IdsOf(docs) - finished
      ensures Recount(Inserted(Outside(log, c, from, to), docs), Key(c, e)) == NO_STATS
    {
      NoRowsNoStats(docs, Key(c, e));
    }
  }

  lemma {:induction false} InsertKeeps(log: seq<LogRow>, docs: seq<LogRow>, r: LogRow)
    requires r in log
    ensures r in InsertFree(log, docs)
  {
    if docs != [] {
      InsertKeeps(log, docs[..|docs| - 1], r);
    }
  }

  /** A row whose key the log has already makes the insertion fail, wherever it stands in it. */
  lemma {:induction false} TakenClashes(log: seq<LogRow>, docs: seq<LogRow>, survivor: LogRow, row: LogRow)
    requires survivor in log && row in docs && SameKey(survivor, row)
    ensures Clash(log, docs)
  {
    var init := docs[..|docs| - 1];
    assert docs == init + [docs[|docs| - 1]];
    if row in init {
      TakenClashes(log, init, survivor, row);
    } else {
      InsertKeeps(log, init, survivor);
    }
  }

  /** The surviving row of a transaction that was mined again inside the range clashes with its new row. */
  lemma MinedAgainElsewhereClashes(log: seq<LogRow>, survivor: LogRow, row: LogRow, c: string, from: int, to: int,
          docs: seq<LogRow>, stop: Stop)
    requires !stop.Inserting? && survivor in log && !InRange(survivor, c, from, to)
    requires row in docs && SameKey(survivor, row)
    ensures ChunkOutcome(log, c, from, to, docs, stop) == DuplicateKey
  {
    hide Clash;
    OutsideHas(log, c, from, to, survivor);
    TakenClashes(Outside(log, c, from, to), docs, survivor, row);
  }

  /** A sale that a reorganisation removed is still counted after an interrupted chunk and its retry. */
  lemma VanishedEventStaysCounted()
    ensures var sale := LogRow("t", 5, "a", 0, Purchased, "1", None, Some(10));
            var docs := [LogRow("t", 6, "b", 0, Purchased, "2", None, Some(3))];
            var stats := map[Key("t", "1") := Stats(0, 1, 0, 0, 0, 10)];
            var log' := ChunkLog([sale], "t", 5, 6, docs);
            var stats' := ChunkStats(log', stats, "t", 5, 6, docs, Never);
            && ChunkOutcome([sale], "t", 5, 6, docs, Rebuilding({})) == Interrupted
            && StatsOf(stats', Key("t", "1")).sold == 1 && Recount(log', Key("t", "1")).sold == 0
  {
    var sale := LogRow("t", 5, "a", 0, Purchased, "1", None, Some(10));
    var row := LogRow("t", 6, "b", 0, Purchased, "2", None, Some(3));
    var stats := map[Key("t", "1") := Stats(0, 1, 0, 0, 0, 10)];
    assert [sale][..0] == [] && [row][..0] == [];
    assert InsertFree([], [row]) == [row] by {
      assert !Taken([], row);
      assert InsertFree([], [row]) == [] + [row];
    }
    assert Outside([sale], "t", 5, 6) == [];
    assert ChunkLog([sale], "t", 5, 6, [row]) == [row];
    assert ChunkLog([row], "t", 5, 6, [row]) == [row] by {
      assert Outside([row], "t", 5, 6) == [];
    }
    var ids := IdsInRange([row], "t", 5, 6) + IdsOf([row]);
    assert ids == {"2"};
    assert Key("t", "1") !in KeysFor("t", ids);
  }

  // ---- a whole pass ----

  lemma {:induction false} CanonicalHas(chain: seq<LogRow>, c: string, from: int, to: int, r: LogRow)
    ensures r in Canonical(chain, c, from, to) <==> r in chain && InRange(r, c, from, to)
  {
    if chain != [] {
      assert chain == chain[..|chain| - 1] + [chain[|chain| - 1]];
      CanonicalHas(chain[..|chain| - 1], c, from, to, r);
    }
  }

  /** The rows of a finished chunk: everything outside the range stays, inside it exactly the canonical rows. */
  ghost predicate Replaced(log: seq<LogRow>, log': seq<LogRow>, chain: seq<LogRow>, c: string, from: int, to: int)
  {
    forall r :: r in log' <==> (r in log && !InRange(r, c, from, to)) || (r in chain && InRange(r, c, from, to))
  }

  lemma ChunkReplaces(log: seq<LogRow>, chain: seq<LogRow>, c: string, from: int, to: int)
    requires ChunkOutcome(log, c, from, to, Canonical(chain, c, from, to), Never) == Done
    ensures Replaced(log, ChunkLog(log, c, from, to, Canonical(chain, c, from, to)), chain, c, from, to)
  {
    InsertedAreAppended(Outside(log, c, from, to), Canonical(chain, c, from, to));
    var docs := Canonical(chain, c, from, to);
    forall r
      ensures r in ChunkLog(log, c, from, to, docs)
              <==> (r in log && !InRange(r, c, from, to)) || (r in chain && InRange(r, c, from, to))
    {
      OutsideHas(log, c, from, to, r);
      CanonicalHas(chain, c, from, to, r);
    }
  }

  /** The sync loop: chunk after chunk, stopping at the first one that does not finish. */
  method ProcessTicketLogs(store: TicketStore, chain: seq<LogRow>, c: string, from: int, target: int, chunkSize: nat)
    returns (outcome: Outcome)
    requires chunkSize > 0
    modifies store
    ensures outcome == Done && ViewExact(old(store.log), old(store.stats)) ==>
              ViewExact(store.log, store.stats) && Replaced(old(store.log), store.log, chain, c, from, target)
  {
    ghost var log0 := store.log;
    ghost var exact0 := ViewExact(store.log, store.stats);
    var currentFrom := from;
    while currentFrom <= target
      invariant if from <= target then from <= currentFrom <= target + 1 else currentFrom == from
      invariant exact0 ==> ViewExact(store.log, store.stats)
      invariant Replaced(log0, store.log, chain, c, from, currentFrom - 1)
      decreases target - currentFrom
    {
      var currentTo := if currentFrom + chunkSize - 1 < target then currentFrom + chunkSize - 1 else target;
      var docs := Canonical(chain, c, currentFrom, currentTo);
      ghost var log1, stats1 := store.log, store.stats;
      outcome := store.ProcessChunk(c, currentFrom, currentTo, docs, Never);
      if outcome != Done {
        return;
      }
      if exact0 {
        forall d | d in docs
          ensures d.contract == c
        {
          CanonicalHas(chain, c, currentFrom, currentTo, d);
        }
        ChunkKeepsViewExact(log1, stats1, c, currentFrom, currentTo, docs);
      }
      ChunkReplaces(log1, chain, c, currentFrom, currentTo);
      ReplacedJoin(log0, log1, store.log, chain, c, from, currentFrom, currentTo);
      currentFrom := currentTo + 1;
    }
    outcome := Done;
  }

  lemma ReplacedJoin(log0: seq<LogRow>, log1: seq<LogRow>, log2: seq<LogRow>, chain: seq<LogRow>, c: string,
          from: int, mid: int, to: int)
    requires from <= mid <= to + 1
    requires Replaced(log0, log1, chain, c, from, mid - 1) && Replaced(log1, log2, chain, c, mid, to)
    ensures Replaced(log0, log2, chain, c, from, to)
  {
  }
}
