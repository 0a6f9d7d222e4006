/**
 * The status of one event in the database next to its status on the Fund
 * contract, and every call that moves them: the four timer tasks, the owner,
 * investment and refund confirmations, completion, and other users of the
 * chain. Calls read the status through a cached copy; only the queries that
 * select events for the timer read the database.
 */
module Lifecycle {
  import opened Copies
  import opened Options
  import opened Status
  import Fund

  /**
   * No chain status means that the event was never published. Beside the
   * stored status stand the cached one and those loaded by readers that have
   * not stored them yet.
   */
  datatype World = World(db: AppStatus, chain: Option<ChainStatus>, copy: Option<AppStatus>, loads: map<nat, AppStatus>)

  datatype Minted = NoneMinted | SomeMinted | AllMinted

  /** What one call meets outside the database: whether its chain calls get through, time, tests, logs, and Redis. */
  datatype Env = Env(callsWork: bool, afterDeadline: bool, inWindow: bool, ticketsLeft: bool, minted: Minted,
                     testPasses: bool, chainTestPasses: bool, reported: bool, redis: Redis)

  // ---- rules of the Fund contract ----

  /** Only a funding event past its deadline is finalised with events: it is cancelled. */
  predicate FinalizeCancels(c: ChainStatus, env: Env)
  {
    env.callsWork && c == OnFunding && env.afterDeadline
  }

  predicate OrganizerCanCancel(c: ChainStatus, env: Env)
  {
    env.callsWork && (c == OnFunding || c == OnFunded || c == OnTicketing)
  }

  predicate SalesCancelWorks(c: ChainStatus, env: Env)
  {
    env.callsWork && c == OnTicketing
  }

  predicate CompleteWorks(c: ChainStatus, env: Env)
  {
    env.callsWork && c == OnTicketing && env.chainTestPasses
  }

  // ---- reads and writes ----

  function SeenStatus(w: World, redis: Redis): AppStatus
  {
    Seen(w.copy, w.db, redis)
  }

  /** A call that reads the event and writes nothing. */
  function Looked(w: World, redis: Redis): World
  {
    w.(copy := AfterRead(w.copy, w.db, redis))
  }

  /** A call that reads the event, writes a status and invalidates the copy. */
  function Stored(w: World, status: AppStatus, redis: Redis): World
  {
    w.(db := status, copy := AfterWrite(w.copy, w.db, redis))
  }

  /** The finalisation is on chain; its status is stored if its log is found in the receipt. */
  function Finalized(w: World, status: AppStatus, env: Env): World
  {
    (if env.reported then Stored(w, status, env.redis) else Looked(w, env.redis)).(chain := Some(OnCancelled))
  }

  // ---- updateEventStatus, for the targets the timer uses; an error leaves what was written before it ----

  function UpdateToFunded(w: World, env: Env): World
  {
    var seen := SeenStatus(w, env.redis);
    if seen == Funded || seen == Completed || w.chain.None? then Looked(w, env.redis)
    else if FinalizeCancels(w.chain.value, env) then Finalized(w, Failed, env)
    else Looked(w, env.redis)
  }

  /** Before it mints, the call makes sure that the event it read is shown as funded. */
  function ShownFunded(w: World, redis: Redis): World
  {
    if SeenStatus(w, redis) == Funded then Looked(w, redis) else Stored(w, Funded, redis)
  }

  function UpdateToTicketing(w: World, env: Env): World
  {
    var seen := SeenStatus(w, env.redis);
    if seen == Ticketing || seen == Completed || w.chain.None? || !env.inWindow || !env.callsWork
    then Looked(w, env.redis)
    else
      match w.chain.value
      case OnTicketing => Stored(w, Ticketing, env.redis)
      case OnFunding =>
        if FinalizeCancels(w.chain.value, env) then Finalized(w, Cancelled, env) else Looked(w, env.redis)
      case OnFunded =>
        (match env.minted
         case AllMinted => Stored(w, Ticketing, env.redis).(chain := Some(OnTicketing))
         case SomeMinted => ShownFunded(w, env.redis).(chain := Some(OnTicketing))
         case NoneMinted => ShownFunded(w, env.redis))
      case OnCompleted => ShownFunded(w, env.redis)
      case OnCancelled => ShownFunded(w, env.redis)
  }

  function UpdateToCompleted(w: World, env: Env): World
  {
    var seen := SeenStatus(w, env.redis);
    if seen == Completed || w.chain.None? then Looked(w, env.redis)
    else if CompleteWorks(w.chain.value, env) then Stored(w, Completed, env.redis).(chain := Some(OnCompleted))
    else Looked(w, env.redis)
  }

  /** With the reason that ticket sales were not met. */
  function UpdateToFailed(w: World, env: Env): World
  {
    var seen := SeenStatus(w, env.redis);
    if seen == Failed || seen == Completed || w.chain.None? then Looked(w, env.redis)
    else if SalesCancelWorks(w.chain.value, env) then Stored(w, Failed, env.redis).(chain := Some(OnCancelled))
    else Looked(w, env.redis)
  }

  // ---- timer tasks ----

  datatype Task = FinalizeFunding | StartTicketing | ResolveSales | SettleEnded

  /** The query that selects an event for a task. */
  predicate Due(t: Task, w: World)
  {
    w.chain.Some? &&
    match t
    case FinalizeFunding => w.db == Funding
    case StartTicketing => w.db == Funding || w.db == Funded
    case ResolveSales => w.db == Ticketing
    case SettleEnded => w.db == Ongoing
  }

  /** What a task does to the event it was given; it does not look at the selected status again. */
  function RunTask(t: Task, w: World, env: Env): World
  {
    match t
    case FinalizeFunding => UpdateToFunded(w, env)
    case StartTicketing => if env.ticketsLeft then UpdateToTicketing(w, env) else w
    case ResolveSales =>
      if env.testPasses then w.(db := Ongoing, copy := AfterDelete(w.copy, env.redis)) else UpdateToFailed(w, env)
    case SettleEnded =>
      if !env.callsWork then w
      else if env.testPasses then UpdateToCompleted(w, env)
      else UpdateToFailed(w, env)
  }

  // ---- the other callers ----

  /** What the owner may ask for: the status the event is read with, or one that follows it. */
  predicate OwnerMay(from: AppStatus, to: AppStatus)
  {
    to == from ||
    match from
    case Draft => to == Cancelled
    case Funding => to == Cancelled
    case Funded => to == Cancelled || to == Ticketing
    case Ticketing => to == Cancelled || to == Ongoing || to == Completed
    case Ongoing => to == Completed
    case _ => false
  }

  /** With a receipt the owner shows that the chain has already moved; otherwise the backend calls it. */
  function OwnerUpdate(w: World, to: AppStatus, withReceipt: bool, env: Env): World
  {
    if !OwnerMay(SeenStatus(w, env.redis), to) then Looked(w, env.redis)
    else if to == Cancelled then
      if w.chain.None? || (withReceipt && w.chain.value == OnCancelled) then Stored(w, Cancelled, env.redis)
      else if !withReceipt && OrganizerCanCancel(w.chain.value, env)
      then Stored(w, Cancelled, env.redis).(chain := Some(OnCancelled))
      else Looked(w, env.redis)
    else if to == Completed then
      if w.chain.Some? && withReceipt && w.chain.value == OnCompleted then Stored(w, Completed, env.redis)
      else if w.chain.Some? && !withReceipt && CompleteWorks(w.chain.value, env)
      then Stored(w, Completed, env.redis).(chain := Some(OnCompleted))
      else Looked(w, env.redis)
    else Stored(w, to, env.redis)
  }

  /** Whatever status was read is written back, or funded if the goal is reached. */
  function InvestmentConfirmed(w: World, goalReached: bool, redis: Redis): World
  {
    var seen := SeenStatus(w, redis);
    Stored(w, if seen == Funding && goalReached then Funded else seen, redis)
  }

  /** A refund receipt exists only for an event cancelled on chain; the stored event is read again for the reply. */
  function RefundConfirmed(w: World, hasConfirmed: bool, redis: Redis): World
  {
    if w.chain != Some(OnCancelled) || !hasConfirmed then Looked(w, redis)
    else Looked(Stored(w, if SeenStatus(w, redis) == Failed then Failed else Cancelled, redis), redis)
  }

  function MarkCompleted(w: World, env: Env): World
  {
    var seen := SeenStatus(w, env.redis);
    if (seen == Ticketing || seen == Ongoing) && w.chain.Some? && CompleteWorks(w.chain.value, env)
    then Stored(w, Completed, env.redis).(chain := Some(OnCompleted))
    else Looked(w, env.redis)
  }

  /** Organizers and investors also call the contract directly. */
  function ChainMoves(w: World, to: ChainStatus): World
  {
    if w.chain.Some? && Fund.Moves(w.chain.value, to) then w.(chain := Some(to)) else w
  }

  // ---- the timer ----

  function DueIds(t: Task, docs: map<string, World>): set<string>
  {
    set id | id in docs && Due(t, docs[id])
  }

  class LifecycleTimer {
    var docs: map<string, World>
    var queuedEventKeys: set<string>

    /** Skips an event that is already being worked on, and releases the key afterwards. */
    method ScheduleLifecycleTask(t: Task, id: string, env: Env)
      requires id in docs
      modifies this
      ensures queuedEventKeys == old(queuedEventKeys)
      ensures docs == old(docs)[id := if id in old(queuedEventKeys) then old(docs)[id]
                                else RunTask(t, old(docs)[id], env)]
    {
      if id in queuedEventKeys {
        assert docs == docs[id := docs[id]];
        return;
      }
      queuedEventKeys := queuedEventKeys + {id};
      docs := docs[id := RunTask(t, docs[id], env)];
      queuedEventKeys := queuedEventKeys - {id};
    }

    /** Selects due events, up to the limit, and works through them; all of them if the limit allows. */
    method RunPhase(t: Task, limit: nat, envs: string -> Env)
      modifies this
      ensures queuedEventKeys == old(queuedEventKeys) && docs.Keys == old(docs).Keys
      ensures forall id :: id in docs ==>
        docs[id] == old(docs)[id] || (id in DueIds(t, old(docs)) && docs[id] == RunTask(t, old(docs)[id], envs(id)))
      ensures |DueIds(t, old(docs))| <= limit && queuedEventKeys == {} ==>
        forall id :: id in DueIds(t, old(docs)) ==> docs[id] == RunTask(t, old(docs)[id], envs(id))
    {
      hide RunTask, Due;
      WorkThrough(t, DueIds(t, docs), limit, envs);
    }

    method WorkThrough(t: Task, selected: set<string>, limit: nat, envs: string -> Env)
      requires selected <= docs.Keys
      modifies this
      ensures queuedEventKeys == old(queuedEventKeys) && docs.Keys == old(docs).Keys
      ensures forall id :: id in docs ==>
        docs[id] == old(docs)[id] || (id in selected && docs[id] == RunTask(t, old(docs)[id], envs(id)))
      ensures |selected| <= limit && queuedEventKeys == {} ==>
        forall id :: id in selected ==> docs[id] == RunTask(t, old(docs)[id], envs(id))
    {
      hide RunTask;
      ghost var start := docs;
      var todo, count := selected, 0;
      while todo != {} && count < limit
        invariant queuedEventKeys == old(queuedEventKeys) && docs.Keys == start.Keys
        invariant todo <= selected && count + |todo| == |selected|
        invariant forall id :: id in todo ==> docs[id] == start[id]
        invariant forall id :: id in docs ==>
          docs[id] == start[id] || (id in selected && docs[id] == RunTask(t, start[id], envs(id)))
        invariant queuedEventKeys == {} ==>
          forall id :: id in selected && id !in todo ==> docs[id] == RunTask(t, start[id], envs(id))
        decreases todo
      {
        var id :| id in todo;
        ScheduleLifecycleTask(t, id, envs(id));
        todo, count := todo - {id}, count + 1;
      }
    }

    /** The four phases of a tick; without interference no status moves down and terminal ones stay. */
    method RunTick(limit: nat, envs: Task -> string -> Env)
      requires forall id :: id in docs ==> Linked(docs[id])
      modifies this
      ensures docs.Keys == old(docs).Keys
      ensures forall id :: id in docs ==> Linked(docs[id]) && Forward(old(docs)[id].db, docs[id].db)
    {
      hide RunTask, Forward, Linked;
      forall id | id in docs
        ensures Forward(docs[id].db, docs[id].db)
      {
        ForwardOrder(docs[id].db, docs[id].db, docs[id].db);
      }
      RunPhaseForward(FinalizeFunding, limit, envs(FinalizeFunding), docs);
      RunPhaseForward(StartTicketing, limit, envs(StartTicketing), old(docs));
      RunPhaseForward(ResolveSales, limit, envs(ResolveSales), old(docs));
      RunPhaseForward(SettleEnded, limit, envs(SettleEnded), old(docs));
    }

    method RunPhaseForward(t: Task, limit: nat, envs: string -> Env, ghost start: map<string, World>)
      requires docs.Keys == start.Keys
      requires forall id :: id in docs ==> Linked(docs[id]) && Forward(start[id].db, docs[id].db)
      modifies this
      ensures docs.Keys == start.Keys
      ensures forall id :: id in docs ==> Linked(docs[id]) && Forward(start[id].db, docs[id].db)
    {
      hide RunTask, Forward, Linked;
      RunPhase(t, limit, envs);
      forall id | id in docs
        ensures Linked(docs[id]) && Forward(start[id].db, docs[id].db)
      {
        if docs[id] != old(docs)[id] {
          DueTaskMovesForward(t, old(docs)[id], envs(id));
          ForwardOrder(start[id].db, old(docs)[id].db, docs[id].db);
        }
      }
    }
  }

  // ---- monotone status ----

  function Rank(s: AppStatus): nat
  {
    match s
    case Draft => 0
    case Funding => 1
    case Funded => 2
    case Ticketing => 3
    case Ongoing => 4
    case _ => 5
  }

  /** Never down in rank, and never out of a terminal status. */
  predicate Forward(a: AppStatus, b: AppStatus)
  {
    Rank(a) <= Rank(b) && (Terminal(a) ==> a == b)
  }

  lemma ForwardOrder(a: AppStatus, b: AppStatus, c: AppStatus)
    ensures Forward(a, a)
    ensures Forward(a, b) && Forward(b, c) ==> Forward(a, c)
  {
  }

  /** A terminal status in the database is backed by the chain. */
  predicate Backed(w: World)
  {
    && (w.db == Completed ==> w.chain == Some(OnCompleted))
    && (w.db == Cancelled || w.db == Failed ==> w.chain == None || w.chain == Some(OnCancelled))
  }

  /** So it is, and every copy is of an earlier status. */
  ghost predicate Linked(w: World)
  {
    && Backed(w) && (w.copy.Some? ==> Forward(w.copy.value, w.db))
    && forall r :: r in w.loads ==> Forward(w.loads[r], w.db)
  }

  /** Copies stay copies of an earlier status as long as the status moves forward. */
  lemma CopiesStay(w: World, v: World)
    requires Linked(w) && Backed(v) && v.loads == w.loads && Forward(w.db, v.db)
    requires v.copy in {None, w.copy, Some(w.db), Some(v.db)}
    ensures Linked(v)
  {
  }

  /** What every call does to the cache. */
  predicate SameLoads(w: World, v: World)
  {
    v.loads == w.loads && (v.copy in {None, w.copy, Some(w.db), Some(v.db)})
  }

  lemma DueTaskMovesForward(t: Task, w: World, env: Env)
    requires Linked(w) && Due(t, w)
    ensures Linked(RunTask(t, w, env)) && Forward(w.db, RunTask(t, w, env).db)
    ensures RunTask(t, w, env).db != w.db ==> Rank(w.db) < Rank(RunTask(t, w, env).db)
  {
    DueTask(t, w, env);
    CopiesStay(w, RunTask(t, w, env));
  }

  lemma DueTask(t: Task, w: World, env: Env)
    requires Linked(w) && Due(t, w)
    ensures var v := RunTask(t, w, env);
            && Backed(v) && SameLoads(w, v) && Forward(w.db, v.db) && (v.db != w.db ==> Rank(w.db) < Rank(v.db))
  {
  }

  datatype Step =
    | Tick(task: Task, env: Env)
    | Late(task: Task, env: Env)
    | Owner(to: AppStatus, withReceipt: bool, env: Env)
    | Invested(goalReached: bool, redis: Redis)
    | RefundClaimed(hasConfirmed: bool, redis: Redis)
    | Completion(env: Env)
    | Chain(moves: ChainStatus)
    | Delayed(status: AppStatus, redis: Redis)
    | Load(reader: nat)
    | Store(reader: nat)
    | Expire

  /** The status write that follows a chain call, if the chain got so far. */
  predicate WriteDue(status: AppStatus, w: World)
  {
    w.chain.Some? &&
    match status
    case Funded => w.chain.value != OnFunding
    case Ticketing => w.chain.value != OnFunding && w.chain.value != OnFunded
    case Completed => w.chain.value == OnCompleted
    case Cancelled => w.chain.value == OnCancelled
    case Failed => w.chain.value == OnCancelled
    case _ => false
  }

  /**
   * A tick selects and works in one go: it does nothing unless the event is
   * due. A late task was selected earlier, in some other state. A delayed
   * write belongs to a call whose chain part was done in an earlier step: the
   * call waited for its transactions, and others came first.
   */
  function Apply(w: World, s: Step): World
  {
    match s
    case Tick(t, env) => if Due(t, w) then RunTask(t, w, env) else w
    case Late(t, env) => RunTask(t, w, env)
    case Owner(to, r, env) => OwnerUpdate(w, to, r, env)
    case Invested(g, redis) => InvestmentConfirmed(w, g, redis)
    case RefundClaimed(h, redis) => RefundConfirmed(w, h, redis)
    case Completion(env) => MarkCompleted(w, env)
    case Chain(to) => ChainMoves(w, to)
    case Delayed(status, redis) =>
      if WriteDue(status, w) then w.(db := status, copy := AfterDelete(w.copy, redis)) else w
    case Load(r) => if w.copy.None? && r !in w.loads then w.(loads := w.loads[r := w.db]) else w
    case Store(r) => if r in w.loads then w.(copy := Some(w.loads[r]), loads := w.loads - {r}) else w
    case Expire => w.(copy := None)
  }

  function Run(w: World, steps: seq<Step>): World
  {
    if steps == [] then w else Apply(Run(w, steps[..|steps| - 1]), steps[|steps| - 1])
  }

  // ---- exactly what moves a status back ----

  /** A task that comes late: the states in which it moves the status back. */
  predicate LateGoesBack(t: Task, w: World, env: Env)
  {
    var seen := SeenStatus(w, env.redis);
    match t
    case FinalizeFunding => false
    case StartTicketing =>
      && env.ticketsLeft && env.inWindow && env.callsWork && w.chain.Some? && seen != Ticketing && seen != Completed
      && (match w.chain.value
          case OnFunding => false
          case OnTicketing => w.db == Ongoing
          case OnFunded => if env.minted == AllMinted then w.db == Ongoing else seen != Funded && Rank(w.db) > 2
          case _ => seen != Funded && Rank(w.db) > 2)
    case ResolveSales => Terminal(w.db) && env.testPasses
    case SettleEnded => false
  }

  /** Any step: a late task as above, a write on the strength of an outdated copy, or one that was overtaken. */
  predicate GoesBack(w: World, s: Step)
  {
    match s
    case Late(t, env) => LateGoesBack(t, w, env)
    case Owner(to, withReceipt, env) =>
      var seen := SeenStatus(w, env.redis);
      && seen != w.db && OwnerMay(seen, to) && to != Completed
      && if to == Cancelled then w.db == Failed && (w.chain.None? || withReceipt)
         else Terminal(w.db) || Rank(to) < Rank(w.db)
    case Invested(goalReached, redis) =>
      var seen := SeenStatus(w, redis);
      seen != w.db && !(seen == Funding && goalReached && w.db == Funded)
    case RefundClaimed(hasConfirmed, redis) =>
      w.chain == Some(OnCancelled) && hasConfirmed && w.db == Failed && SeenStatus(w, redis) != Failed
    case Delayed(status, _) =>
      && WriteDue(status, w)
      && (match status
          case Funded => w.db == Ticketing || w.db == Ongoing || Terminal(w.db)
          case Ticketing => w.db == Ongoing || Terminal(w.db)
          case _ => Terminal(w.db) && w.db != status)
    case _ => false
  }

  /** A call keeps the link, moves up if it moves forward, and touches no loads. */
  predicate Kept(w: World, v: World)
  {
    Backed(v) && SameLoads(w, v) && (v.db != w.db ==> Rank(w.db) < Rank(v.db))
  }

  lemma LateTicketing(w: World, env: Env)
    requires Linked(w)
    ensures !Forward(w.db, RunTask(StartTicketing, w, env).db) <==> LateGoesBack(StartTicketing, w, env)
    ensures !LateGoesBack(StartTicketing, w, env) ==> Kept(w, RunTask(StartTicketing, w, env))
  {
  }

  lemma LateTaskGoesBackIff(t: Task, w: World, env: Env)
    requires Linked(w)
    ensures !Forward(w.db, RunTask(t, w, env).db) <==> LateGoesBack(t, w, env)
    ensures !LateGoesBack(t, w, env) ==> Kept(w, RunTask(t, w, env))
  {
    hide UpdateToTicketing;
    if t == StartTicketing {
      LateTicketing(w, env);
    }
  }

  lemma OwnerGoesBackIff(w: World, s: Step)
    requires Linked(w) && s.Owner?
    ensures !Forward(w.db, Apply(w, s).db) <==> GoesBack(w, s)
    ensures !GoesBack(w, s) ==> Kept(w, Apply(w, s))
  {
  }

  lemma ConfirmationGoesBackIff(w: World, s: Step)
    requires Linked(w) && (s.Invested? || s.RefundClaimed? || s.Completion?)
    ensures !Forward(w.db, Apply(w, s).db) <==> GoesBack(w, s)
    ensures !GoesBack(w, s) ==> Kept(w, Apply(w, s))
  {
  }

  lemma DelayedGoesBackIff(w: World, s: Step)
    requires Linked(w) && s.Delayed?
    ensures !Forward(w.db, Apply(w, s).db) <==> GoesBack(w, s)
    ensures !GoesBack(w, s) ==> Kept(w, Apply(w, s))
  {
  }

  lemma OtherStep(w: World, s: Step)
    requires Linked(w) && (s.Chain? || s.Load? || s.Store? || s.Expire?)
    ensures Linked(Apply(w, s)) && Apply(w, s).db == w.db && !GoesBack(w, s)
  {
  }

  /** From a linked state a step moves the status back exactly under its guard; otherwise the link stays. */
  lemma StepMovesBackIff(w: World, s: Step)
    requires Linked(w)
    ensures !Forward(w.db, Apply(w, s).db) <==> GoesBack(w, s)
    ensures !GoesBack(w, s) ==> Linked(Apply(w, s))
    ensures !GoesBack(w, s) && Apply(w, s).db != w.db ==> Rank(w.db) < Rank(Apply(w, s).db)
  {
    hide RunTask, OwnerUpdate, InvestmentConfirmed, RefundConfirmed, MarkCompleted, Linked, LateGoesBack, Backed;
    ForwardOrder(w.db, w.db, w.db);
    match s {
      case Tick(t, env) =>
        if Due(t, w) {
          DueTaskMovesForward(t, w, env);
        }
      case Late(t, env) => LateTaskGoesBackIff(t, w, env);
      case Owner(_, _, _) => OwnerGoesBackIff(w, s);
      case Invested(_, _) => ConfirmationGoesBackIff(w, s);
      case RefundClaimed(_, _) => ConfirmationGoesBackIff(w, s);
      case Completion(_) => ConfirmationGoesBackIff(w, s);
      case Delayed(_, _) => DelayedGoesBackIff(w, s);
      case _ => OtherStep(w, s);
    }
    if !s.Tick? && !s.Chain? && !s.Load? && !s.Store? && !s.Expire? && !GoesBack(w, s) {
      CopiesStay(w, Apply(w, s));
    }
  }

  /** No step of the run moved the status back. */
  predicate AlwaysForward(w: World, steps: seq<Step>)
  {
    steps != [] ==>
      var before := Run(w, steps[..|steps| - 1]);
      AlwaysForward(w, steps[..|steps| - 1]) && Forward(before.db, Apply(before, steps[|steps| - 1]).db)
  }

  /** No step of the run was a late task, an outdated read or an overtaken write of the guarded kinds. */
  predicate NoneGoesBack(w: World, steps: seq<Step>)
  {
    steps != [] ==>
      NoneGoesBack(w, steps[..|steps| - 1]) && !GoesBack(Run(w, steps[..|steps| - 1]), steps[|steps| - 1])
  }

  function Changes(w: World, steps: seq<Step>): nat
  {
    if steps == [] then 0
    else
      var before := Run(w, steps[..|steps| - 1]);
      Changes(w, steps[..|steps| - 1]) + if Apply(before, steps[|steps| - 1]).db != before.db then 1 else 0
  }

  /**
   * Over any interleaving of timer tasks, prompt and late, calls of the owner
   * and of users, contract moves, delayed writes and cached reads: the status
   * only ever moves forward if and only if no step meets its guard. Then
   * terminal statuses are absorbing, and an event changes status at most five
   * times.
   */
  lemma {:induction false} StatusOnlyMovesForwardIff(w: World, steps: seq<Step>)
    requires Linked(w)
    ensures AlwaysForward(w, steps) <==> NoneGoesBack(w, steps)
    ensures NoneGoesBack(w, steps) ==>
      var r := Run(w, steps);
      && Linked(r) && Forward(w.db, r.db)
      && Changes(w, steps) + Rank(w.db) <= Rank(r.db) <= 5
  {
    hide Apply, Linked, GoesBack;
    ForwardOrder(w.db, w.db, w.db);
    if steps != [] {
      var before := Run(w, steps[..|steps| - 1]);
      StatusOnlyMovesForwardIff(w, steps[..|steps| - 1]);
      if NoneGoesBack(w, steps[..|steps| - 1]) {
        StepMovesBackIff(before, steps[|steps| - 1]);
        ForwardOrder(w.db, before.db, Run(w, steps).db);
      }
    }
  }

  /** With prompt tasks and writes only, and no copy when a call reads, there is nothing to guard against. */
  lemma FreshPromptStepsMoveForward(w: World, s: Step)
    requires Linked(w) && w.copy.None? && !s.Late? && !s.Delayed?
    ensures !GoesBack(w, s)
  {
  }

  const ALL_WELL := Env(true, false, true, true, NoneMinted, true, true, true, Works)

  /** Selected while funded, cancelled by its owner, then worked on: a cancelled event becomes funded. */
  lemma CancelledEventBecomesFunded()
    ensures var selected := World(Funded, Some(OnFunded), None, map[]);
            var cancelled := Apply(selected, Owner(Cancelled, false, ALL_WELL));
            && Due(StartTicketing, selected) && Linked(selected)
            && cancelled.db == Cancelled && RunTask(StartTicketing, cancelled, ALL_WELL).db == Funded
  {
  }

  /** Selected at the end of its sales window, cancelled by its owner, then resolved: it becomes ongoing. */
  lemma CancelledEventBecomesOngoing()
    ensures var selected := World(Ticketing, Some(OnTicketing), None, map[]);
            var cancelled := Apply(selected, Owner(Cancelled, false, ALL_WELL));
            && Due(ResolveSales, selected) && Linked(selected)
            && cancelled.db == Cancelled && RunTask(ResolveSales, cancelled, ALL_WELL).db == Ongoing
  {
  }

  /**
   * Loaded while funding, cancelled, then stored by the slow reader: the next
   * investment confirmation revives the event.
   */
  lemma StaleCopyRevivesEvent(reader: nat, goalReached: bool)
    ensures var loaded := Apply(World(Funding, Some(OnFunding), None, map[]), Load(reader));
            var cancelled := Apply(loaded, Owner(Cancelled, false, ALL_WELL));
            var stored := Apply(cancelled, Store(reader));
            && Linked(stored) && stored.db == Cancelled && stored.chain == Some(OnCancelled)
            && Apply(stored, Invested(goalReached, Works)).db == if goalReached then Funded else Funding
  {
  }

  /** Minted on chain, cancelled by its owner before the status is written: a cancelled event is put on sale. */
  lemma OvertakenMintReopensEvent()
    ensures var minted := Apply(World(Funded, Some(OnFunded), None, map[]), Chain(OnTicketing));
            var cancelled := Apply(minted, Owner(Cancelled, false, ALL_WELL));
            && Linked(cancelled) && cancelled.db == Cancelled && cancelled.chain == Some(OnCancelled)
            && Apply(cancelled, Delayed(Ticketing, Works)).db == Ticketing
  {
  }
}
