/**
 * Events read through a cache. A read that misses loads the event from the
 * database and stores it with a time to live; the load and the store are two
 * steps, and so are a write and the invalidation that may follow it.
 */
module EventCache {
  import opened Options

  /** The serialised document, as the cache stores it. */
  type Doc = string

  /** No expiry time means that the entry stays. */
  datatype Entry = Entry(doc: Doc, loadedAt: nat, expires: Option<nat>)

  /** A reader between its load and its store. */
  datatype Load = Load(id: string, doc: Doc, loadedAt: nat)

  /** What the database held from a time on. */
  datatype Version = Version(from: nat, docs: map<string, Doc>)

  /** loadedAt and history are there to state how old a read is; no step depends on them. */
  datatype State = State(
    docs: map<string, Doc>, store: map<string, Entry>, loading: map<nat, Load>, up: bool, ttl: int, now: nat,
    history: seq<Version>)

  datatype Step =
    | Tick(seconds: nat)
    | Redis(up: bool)
    | Begin(reader: nat, id: string)
    | Finish(reader: nat, works: bool)
    | Write(id: string, doc: Option<Doc>)
    | Invalidate(id: string, works: bool)

  /** The configured time to live: a missing, unreadable or zero setting means ten minutes. */
  function EventTtl(setting: Option<int>): (ttl: int)
    ensures ttl != 0
  {
    if setting.Some? && setting.value != 0 then setting.value else 600
  }

  predicate Live(e: Entry, now: nat)
  {
    e.expires.None? || now < e.expires.value
  }

  function Get(s: State, id: string): Option<Doc>
  {
    if s.up && id in s.store && Live(s.store[id], s.now) then Some(s.store[id].doc) else None
  }

  /** A zero time to live stores without expiry; Redis refuses a negative one. */
  function Set(s: State, id: string, doc: Doc, loadedAt: nat, works: bool): map<string, Entry>
  {
    if !s.up || !works || s.ttl < 0 then s.store
    else s.store[id := Entry(doc, loadedAt, if s.ttl == 0 then None else Some(s.now + s.ttl))]
  }

  function Del(s: State, id: string, works: bool): map<string, Entry>
  {
    if s.up && works then s.store - {id} else s.store
  }

  function WriteDoc(s: State, id: string, doc: Option<Doc>): State
  {
    var docs := if doc.Some? then s.docs[id := doc.value] else s.docs - {id};
    s.(docs := docs, history := s.history + [Version(s.now, docs)])
  }

  function Apply(s: State, step: Step): State
  {
    match step
    case Tick(n) => s.(now := s.now + n)
    case Redis(up) => s.(up := up)
    case Begin(r, id) =>
      if r in s.loading || Get(s, id).Some? || id !in s.docs then s
      else s.(loading := s.loading[r := Load(id, s.docs[id], s.now)])
    case Finish(r, works) =>
      if r !in s.loading then s
      else
        var l := s.loading[r];
        s.(loading := s.loading - {r}, store := Set(s, l.id, l.doc, l.loadedAt, works))
    case Write(id, doc) => WriteDoc(s, id, doc)
    case Invalidate(id, works) => s.(store := Del(s, id, works))
  }

  function Run(s: State, steps: seq<Step>): State
  {
    if steps == [] then s else Apply(Run(s, steps[..|steps| - 1]), steps[|steps| - 1])
  }

  function Start(docs: map<string, Doc>, setting: Option<int>): State
  {
    State(docs, map[], map[], true, EventTtl(setting), 0, [Version(0, docs)])
  }

  // ---- the repository and the cache service ----

  class EventRepository {
    var docs: map<string, Doc>
    var store: map<string, Entry>
    var loading: map<nat, Load>
    var up: bool
    var ttl: int
    var now: nat
    var history: seq<Version>

    function Current(): State
      reads this
    {
      State(docs, store, loading, up, ttl, now, history)
    }

    method GetEvent(id: string) returns (doc: Option<Doc>)
      ensures doc == Get(Current(), id)
    {
      if !up || id !in store {
        return None;
      }
      var e := store[id];
      if e.expires.Some? && e.expires.value <= now {
        return None;
      }
      return Some(e.doc);
    }

    method CacheEvent(id: string, doc: Doc, loadedAt: nat, works: bool)
      modifies this`store
      ensures store == Set(old(Current()), id, doc, loadedAt, works)
    {
      if !up || !works || ttl < 0 {
        return;
      }
      var expires := None;
      if ttl != 0 {
        expires := Some(now + ttl);
      }
      store := store[id := Entry(doc, loadedAt, expires)];
    }

    /** A read that is not interrupted. */
    method FindById(reader: nat, id: string, works: bool) returns (doc: Option<Doc>)
      requires reader !in loading
      modifies this`store
      ensures Current() == Apply(Apply(old(Current()), Begin(reader, id)), Finish(reader, works))
      ensures doc == if Get(old(Current()), id).Some? then Get(old(Current()), id)
                     else if id in docs then Some(docs[id]) else None
    {
      doc := GetEvent(id);
      if doc.Some? {
        return;
      }
      if id in docs {
        doc := Some(docs[id]);
        CacheEvent(id, docs[id], now, works);
        assert loading[reader := Load(id, docs[id], now)] - {reader} == loading;
      }
    }

    /** An update of an existing event, with its invalidation. */
    method UpdateById(id: string, doc: Doc, works: bool) returns (found: bool)
      modifies this
      ensures found == (id in old(docs))
      ensures Current() == if found then Apply(Apply(old(Current()), Write(id, Some(doc))), Invalidate(id, works))
                          else old(Current())
    {
      if id !in docs {
        return false;
      }
      docs := docs[id := doc];
      history := history + [Version(now, docs)];
      if up && works {
        store := store - {id};
      }
      return true;
    }
  }
}
