/** What the calls of the lifecycle make of an event, told by the ticket counts and the state of the contract. */
module LifecycleOutcomes {
  import opened Copies
  import opened Options
  import opened Status
  import opened Thresholds
  import opened Lifecycle

  /** The event in the database and on the contract. */
  predicate Ends(w: World, db: AppStatus, chain: ChainStatus)
  {
    w.db == db && w.chain == Some(chain)
  }

  // ---- the timer ----

  /** The check-in test of timer and contract, on the same counts. */
  predicate CountsTickets(env: Env, sold: nat, used: nat)
  {
    env.testPasses == CheckInPasses(sold, used) && env.chainTestPasses == FundAcceptsCompletion(sold, used)
  }

  /** An ended event is completed if 36 percent of its sold tickets were used, and failed otherwise. */
  lemma SettleEndedOutcome(w: World, env: Env, sold: nat, used: nat)
    requires Linked(w) && Ends(w, Ongoing, OnTicketing) && env.callsWork && CountsTickets(env, sold, used)
    ensures var v := RunTask(SettleEnded, w, env);
            if sold > 0 && 100 * used >= 36 * sold then Ends(v, Completed, OnCompleted)
            else Ends(v, Failed, OnCancelled)
  {
    CompletionTestsAgree(sold, used);
  }

  /** The target is a share of the tickets if one is set, else a count, else all of them. */
  predicate SoldEnough(sold: nat, maxTickets: nat, percent: real, count: int)
  {
    if percent > 0.0 then 100.0 * sold as real >= percent * maxTickets as real
    else sold >= if count > 0 then count else maxTickets
  }

  /** At the end of its sales window an event goes on if enough was sold, and fails otherwise. */
  lemma ResolveSalesOutcome(w: World, env: Env, sold: nat, maxTickets: nat, percent: real, count: int)
    requires Linked(w) && Ends(w, Ticketing, OnTicketing) && env.callsWork && maxTickets > 0
    requires env.testPasses == SalesPass(sold, maxTickets, percent, count)
    ensures var v := RunTask(ResolveSales, w, env);
            if SoldEnough(sold, maxTickets, percent, count) then Ends(v, Ongoing, OnTicketing)
            else Ends(v, Failed, OnCancelled)
  {
    SalesPassMeans(sold, maxTickets, percent, count);
  }

  /** A funding event fails past its deadline, and is left alone before it. */
  lemma FinalizeFundingOutcome(w: World, env: Env)
    requires Linked(w) && Ends(w, Funding, OnFunding) && env.callsWork
    ensures var v := RunTask(FinalizeFunding, w, env);
            if !env.afterDeadline then Ends(v, Funding, OnFunding)
            else Ends(v, if env.reported then Failed else Funding, OnCancelled)
  {
  }

  /** An event that is funded on chain shows what was minted of it: all, some or nothing. */
  lemma StartTicketingOutcome(w: World, env: Env)
    requires Linked(w) && w.chain == Some(OnFunded) && (w.db == Funding || w.db == Funded)
    requires env.callsWork && env.inWindow && env.ticketsLeft
    ensures var v := RunTask(StartTicketing, w, env);
            match env.minted
            case AllMinted => Ends(v, Ticketing, OnTicketing)
            case SomeMinted => Ends(v, Funded, OnTicketing)
            case NoneMinted => Ends(v, Funded, OnFunded)
  {
  }

  /** An event that is ticketing on chain already is shown so; one that is still funding is not ticketed. */
  lemma StartTicketingElsewhere(w: World, env: Env)
    requires Linked(w) && (w.db == Funding || w.db == Funded) && env.callsWork && env.inWindow && env.ticketsLeft
    ensures var v := RunTask(StartTicketing, w, env);
            && (w.chain == Some(OnTicketing) ==> Ends(v, Ticketing, OnTicketing))
            && (w.chain == Some(OnFunding) && !env.afterDeadline ==> Ends(v, w.db, OnFunding))
            && (w.chain == Some(OnFunding) && env.afterDeadline ==>
                  Ends(v, if env.reported then Cancelled else w.db, OnCancelled))
  {
  }

  /** Without working calls, outside the window, or with nothing left to sell, a task changes nothing of the event. */
  lemma TaskWaits(t: Task, w: World, env: Env)
    requires Linked(w) && Due(t, w)
    requires !env.callsWork || (t == StartTicketing && (!env.inWindow || !env.ticketsLeft))
    ensures var v := RunTask(t, w, env);
            && v.chain == w.chain && v.db == (if t == ResolveSales && env.testPasses then Ongoing else w.db)
            && (t == SettleEnded || (t == StartTicketing && !env.ticketsLeft) ==> v == w)
  {
  }

  // ---- a whole phase of the timer: every selected event gets its outcome, every other one is left alone ----

  method SettlePhase(timer: LifecycleTimer, limit: nat, envs: string -> Env, sold: string -> nat, used: string -> nat)
    requires timer.queuedEventKeys == {} && |DueIds(SettleEnded, timer.docs)| <= limit
    requires forall id :: id in DueIds(SettleEnded, timer.docs) ==>
      Linked(timer.docs[id]) && envs(id).callsWork && CountsTickets(envs(id), sold(id), used(id))
    modifies timer
    ensures timer.docs.Keys == old(timer.docs).Keys
    ensures forall id :: id in timer.docs && !Ends(old(timer.docs)[id], Ongoing, OnTicketing) ==>
      timer.docs[id].db == old(timer.docs)[id].db && timer.docs[id].chain == old(timer.docs)[id].chain
    ensures forall id :: id in timer.docs && Ends(old(timer.docs)[id], Ongoing, OnTicketing) ==>
      if sold(id) > 0 && 100 * used(id) >= 36 * sold(id) then Ends(timer.docs[id], Completed, OnCompleted)
      else Ends(timer.docs[id], Failed, OnCancelled)
  {
    timer.RunPhase(SettleEnded, limit, envs);
    ghost var start := old(timer.docs);
    forall id | id in start && Ends(start[id], Ongoing, OnTicketing)
      ensures if sold(id) > 0 && 100 * used(id) >= 36 * sold(id) then Ends(timer.docs[id], Completed, OnCompleted)
              else Ends(timer.docs[id], Failed, OnCancelled)
    {
      assert id in DueIds(SettleEnded, start);
      SettleEndedOutcome(start[id], envs(id), sold(id), used(id));
    }
  }

  method ResolvePhase(timer: LifecycleTimer, limit: nat, envs: string -> Env, sold: string -> nat, max: string -> nat,
                      percent: string -> real, count: string -> int)
    requires timer.queuedEventKeys == {} && |DueIds(ResolveSales, timer.docs)| <= limit
    requires forall id :: id in DueIds(ResolveSales, timer.docs) ==>
      && Linked(timer.docs[id]) && envs(id).callsWork && max(id) > 0
      && envs(id).testPasses == SalesPass(sold(id), max(id), percent(id), count(id))
    modifies timer
    ensures timer.docs.Keys == old(timer.docs).Keys
    ensures forall id ::
              id in timer.docs && (old(timer.docs)[id].db != Ticketing || old(timer.docs)[id].chain.None?) ==>
      timer.docs[id].db == old(timer.docs)[id].db && timer.docs[id].chain == old(timer.docs)[id].chain
    ensures forall id :: id in timer.docs && Ends(old(timer.docs)[id], Ticketing, OnTicketing) ==>
      if SoldEnough(sold(id), max(id), percent(id), count(id)) then Ends(timer.docs[id], Ongoing, OnTicketing)
      else Ends(timer.docs[id], Failed, OnCancelled)
  {
    timer.RunPhase(ResolveSales, limit, envs);
    ghost var start := old(timer.docs);
    forall id | id in start && Ends(start[id], Ticketing, OnTicketing)
      ensures if SoldEnough(sold(id), max(id), percent(id), count(id)) then Ends(timer.docs[id], Ongoing, OnTicketing)
              else Ends(timer.docs[id], Failed, OnCancelled)
    {
      assert id in DueIds(ResolveSales, start);
      ResolveSalesOutcome(start[id], envs(id), sold(id), max(id), percent(id), count(id));
    }
  }

  method FinalizePhase(timer: LifecycleTimer, limit: nat, envs: string -> Env)
    requires timer.queuedEventKeys == {} && |DueIds(FinalizeFunding, timer.docs)| <= limit
    requires forall id :: id in DueIds(FinalizeFunding, timer.docs) ==>
      Linked(timer.docs[id]) && envs(id).callsWork && envs(id).reported
    modifies timer
    ensures timer.docs.Keys == old(timer.docs).Keys
    ensures forall id :: id in timer.docs ==>
      var before := old(timer.docs)[id];
      if Ends(before, Funding, OnFunding) && envs(id).afterDeadline then Ends(timer.docs[id], Failed, OnCancelled)
      else timer.docs[id].db == before.db && timer.docs[id].chain == before.chain
  {
    timer.RunPhase(FinalizeFunding, limit, envs);
    ghost var start := old(timer.docs);
    forall id | id in start && Ends(start[id], Funding, OnFunding) && envs(id).afterDeadline
      ensures Ends(timer.docs[id], Failed, OnCancelled)
    {
      assert id in DueIds(FinalizeFunding, start);
      FinalizeFundingOutcome(start[id], envs(id));
    }
  }

  // ---- the other callers ----

  /** On a status read as stored, the owner's update sets exactly the asked status, in exactly these cases. */
  lemma OwnerUpdateOutcome(w: World, to: AppStatus, withReceipt: bool, env: Env)
    requires SeenStatus(w, env.redis) == w.db
    ensures var v := OwnerUpdate(w, to, withReceipt, env);
            && (v.db != w.db ==> v.db == to)
            && (v.db == Cancelled && w.db != Cancelled <==>
                  && to == Cancelled && w.db in {Draft, Funding, Funded, Ticketing}
                  && (w.chain.None? || if withReceipt then w.chain == Some(OnCancelled)
                                       else env.callsWork && w.chain.value in {OnFunding, OnFunded, OnTicketing}))
            && (v.db == Completed && w.db != Completed <==>
                  && to == Completed && w.db in {Ticketing, Ongoing}
                  && if withReceipt then w.chain == Some(OnCompleted)
                     else env.callsWork && env.chainTestPasses && w.chain == Some(OnTicketing))
            && (v.db == Ticketing && w.db != Ticketing <==> to == Ticketing && w.db == Funded)
            && (v.db == Ongoing && w.db != Ongoing <==> to == Ongoing && w.db == Ticketing)
            && (v.db in {Draft, Funding, Funded, Failed} ==> v.db == w.db)
            && v.chain ==
               if !withReceipt && env.callsWork && to == Cancelled
                  && w.db in {Draft, Funding, Funded, Ticketing, Cancelled}
                  && w.chain in {Some(OnFunding), Some(OnFunded), Some(OnTicketing)} then Some(OnCancelled)
               else if !withReceipt && env.callsWork && env.chainTestPasses && to == Completed
                       && w.db in {Ticketing, Ongoing, Completed} && w.chain == Some(OnTicketing) then Some(OnCompleted)
               else w.chain
  {
  }

  /** An investment makes a funding event funded exactly if it reaches the goal, and keeps every other status. */
  lemma InvestmentOutcome(w: World, goalReached: bool, redis: Redis)
    requires SeenStatus(w, redis) == w.db
    ensures var v := InvestmentConfirmed(w, goalReached, redis);
            && v.chain == w.chain
            && (v.db == Funded && w.db != Funded <==> w.db == Funding && goalReached)
            && (v.db != w.db ==> v.db == Funded)
  {
  }

  /** A refund of an event cancelled on chain keeps a failed event failed and makes every other one cancelled. */
  lemma RefundOutcome(w: World, redis: Redis)
    requires SeenStatus(w, redis) == w.db && w.chain == Some(OnCancelled)
    ensures Ends(RefundConfirmed(w, true, redis), if w.db == Failed then Failed else Cancelled, OnCancelled)
    ensures Ends(RefundConfirmed(w, false, redis), w.db, OnCancelled)
  {
  }

  /** Completion succeeds exactly for an event in ticketing or ongoing that the contract lets complete. */
  lemma MarkCompletedOutcome(w: World, env: Env)
    requires SeenStatus(w, env.redis) == w.db
    ensures var v := MarkCompleted(w, env);
            if && w.db in {Ticketing, Ongoing} && w.chain == Some(OnTicketing)
               && env.callsWork && env.chainTestPasses
            then Ends(v, Completed, OnCompleted)
            else v.db == w.db && v.chain == w.chain
  {
  }
}
