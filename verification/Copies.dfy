/**
 * Reading a stored record through a cached copy. A copy may be any earlier
 * version of the record: it may have been loaded before a write that does not
 * invalidate it, or stored by a reader that loaded it before one that does.
 */
module Copies {
  import opened Options

  /** Whether Redis serves the reads and the deletions of one call. */
  datatype Redis = Works | DeleteFails | Down

  /** What a call reads: the copy if there is one and Redis serves it. */
  function Seen<T>(copy: Option<T>, stored: T, redis: Redis): T
  {
    if copy.Some? && redis != Down then copy.value else stored
  }

  /** A read that missed leaves a copy. */
  function AfterRead<T>(copy: Option<T>, stored: T, redis: Redis): Option<T>
  {
    if redis == Down then copy else Some(Seen(copy, stored, redis))
  }

  function AfterDelete<T>(copy: Option<T>, redis: Redis): Option<T>
  {
    if redis == Works then None else copy
  }

  /** A call that reads the record, writes it and invalidates the copy. */
  function AfterWrite<T>(copy: Option<T>, stored: T, redis: Redis): Option<T>
  {
    AfterDelete(AfterRead(copy, stored, redis), redis)
  }

  /** What a read has seen is what later reads see, whatever is stored meanwhile, while Redis serves both of them. */
  lemma ReadsAgree<T>(copy: Option<T>, stored: T, redis: Redis, later: T, again: Redis)
    ensures var left := AfterRead(copy, stored, redis);
            && (redis == Down ==> left == copy)
            && (redis != Down && again != Down ==> Seen(left, later, again) == Seen(copy, stored, redis))
            && (again == Down ==> Seen(left, later, again) == later)
  {
  }
}
