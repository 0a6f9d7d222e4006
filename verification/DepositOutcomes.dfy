/** What becomes of an order over a run: when it is paid out twice, stranded, or missing from a balance. */
module DepositOutcomes {
  import opened Options
  import opened Sums
  import opened Deposits
  import opened DepositLaws

  // ---- completed and stranded orders ----

  /** Without clashes a completed order keeps its status, wallet, amount and transfer for ever. */
  lemma {:induction false} CompletedForever(s: State, steps: seq<Step>, id: string)
    requires Sound(s) && Clean(s, steps) && id in s.orders && s.orders[id].status == Completed
    ensures id in Run(s, steps).orders
    ensures var o, o' := s.orders[id], Run(s, steps).orders[id];
            && o'.status == Completed && o'.wallet == o.wallet && o'.ethAmount == o.ethAmount
            && o'.transferTx == o.transferTx
            && o'.trace.paidOut == o.trace.paidOut && o'.trace.lost == o.trace.lost
  {
    hide Apply, Owned, Clashes, BalanceIs, AllReadEarlier;
    if steps != [] {
      var before := steps[..|steps| - 1];
      CompletedForever(s, before, id);
      SoundRun(s, before);
      OrderStep(Run(s, before), steps[|steps| - 1], id);
    }
  }

  /** A worker that may still save the order as paid, or take it, on an earlier read. */
  predicate Revives(s: State, worker: nat, id: string)
  {
    && worker in s.jobs && s.jobs[worker].order == id
    && (s.jobs[worker].Starting? || (s.jobs[worker].Confirming? && s.jobs[worker].marks))
  }

  /** In processing, with no worker to finish it. */
  ghost predicate Stranded(s: State, id: string)
  {
    && id in s.orders && s.orders[id].status == Processing
    && forall p :: p in s.jobs && s.jobs[p].order == id ==> !Holding(s.jobs[p])
  }

  ghost predicate LeavesProcessing(s: State, steps: seq<Step>, id: string)
  {
    id in Run(s, steps).orders && Run(s, steps).orders[id].status != Processing
  }

  lemma StrandedStatus(s: State, step: Step, id: string)
    requires Stranded(s, id) && (Worker(step).Some? ==> !Revives(s, Worker(step).value, id))
    ensures id in Apply(s, step).orders && Apply(s, step).orders[id].status == Processing
  {
    if Worker(step).Some? && Worker(step).value in s.jobs {
      assert s.jobs[Worker(step).value].order == id ==> !Holding(s.jobs[Worker(step).value]);
    }
  }

  lemma StrandedWorker(s: State, step: Step, w: nat, id: string)
    requires Stranded(s, id) && Worker(step) == Some(w) && !Revives(s, w, id)
    requires w in Apply(s, step).jobs && Apply(s, step).jobs[w].order == id
    ensures !Holding(Apply(s, step).jobs[w]) && !Revives(Apply(s, step), w, id)
  {
    assert w in s.jobs && s.jobs[w].order == id ==> !Holding(s.jobs[w]);
  }

  lemma StrandedStep(s: State, step: Step, id: string)
    requires Stranded(s, id) && forall p :: p in s.jobs ==> !Revives(s, p, id)
    ensures Stranded(Apply(s, step), id) && forall p :: p in Apply(s, step).jobs ==> !Revives(Apply(s, step), p, id)
  {
    hide Apply;
    var t := Apply(s, step);
    StrandedStatus(s, step, id);
    forall q | q in t.jobs && t.jobs[q].order == id
      ensures !Holding(t.jobs[q]) && !Revives(t, q, id)
    {
      if Worker(step) == Some(q) {
        StrandedWorker(s, step, q, id);
      } else {
        JobsStep(s, step, q);
        assert !Revives(s, q, id);
      }
    }
  }

  lemma {:induction false} StrandedForever(s: State, steps: seq<Step>, id: string)
    requires Stranded(s, id) && forall p :: p in s.jobs ==> !Revives(s, p, id)
    ensures Stranded(Run(s, steps), id) && forall p :: p in Run(s, steps).jobs ==> !Revives(Run(s, steps), p, id)
  {
    hide Apply, Stranded, Revives;
    if steps != [] {
      StrandedForever(s, steps[..|steps| - 1], id);
      StrandedStep(Run(s, steps[..|steps| - 1]), steps[|steps| - 1], id);
    }
  }

  lemma RunOne(s: State, step: Step)
    ensures Run(s, [step]) == Apply(s, step)
  {
    assert [step][..0] == [];
  }

  lemma RunMore(s: State, steps: seq<Step>, step: Step)
    ensures Run(s, steps + [step]) == Apply(Run(s, steps), step)
  {
    assert (steps + [step])[..|steps|] == steps;
  }

  /** A worker that read the order earlier can bring it out of processing. */
  lemma Revived(s: State, worker: nat, id: string)
    requires Stranded(s, id) && Revives(s, worker, id)
    ensures exists steps :: LeavesProcessing(s, steps, id)
  {
    if s.jobs[worker].Confirming? {
      RunOne(s, Confirm(worker));
      assert LeavesProcessing(s, [Confirm(worker)], id);
    } else {
      RunOne(s, Take(worker, true));
      RunMore(s, [Take(worker, true)], Finish(worker, SendFails));
      assert LeavesProcessing(s, [Take(worker, true)] + [Finish(worker, SendFails)], id);
    }
  }

  /**
   * An order whose processor died while it was processing can leave that
   * status, by whatever happens, exactly if some worker still holds a read
   * from before: no callback that comes later restarts it.
   */
  lemma StrandedUnlessReadBefore(s: State, id: string)
    requires Stranded(s, id)
    ensures (exists steps :: LeavesProcessing(s, steps, id)) <==> exists p :: p in s.jobs && Revives(s, p, id)
  {
    hide Stranded, Revives;
    if p :| p in s.jobs && Revives(s, p, id) {
      Revived(s, p, id);
    } else {
      forall steps: seq<Step>
        ensures !LeavesProcessing(s, steps, id)
      {
        StrandedForever(s, steps, id);
        StillProcessing(Run(s, steps), id);
      }
    }
  }

  lemma StillProcessing(s: State, id: string)
    requires Stranded(s, id)
    ensures id in s.orders && s.orders[id].status == Processing
  {
  }

  // ---- paid out twice ----

  function PaidOutOf(s: State, id: string): nat
  {
    if id in s.orders then s.orders[id].trace.paidOut else 0
  }

  /** The step transfers the amount of the order on chain. */
  predicate LandsFor(s: State, step: Step, id: string)
  {
    match step
    case Finish(worker, t) =>
      && Works(s, worker) && s.jobs[worker].Transferring? && s.jobs[worker].order == id
      && t != SendFails && s.orders[id].ethAmount <= s.relayer
    case Crash(worker, landed) =>
      && Works(s, worker) && s.jobs[worker].Transferring? && s.jobs[worker].order == id
      && landed && s.orders[id].ethAmount <= s.relayer
    case _ => false
  }

  /** And the service takes it for failed, or dies before it learns of it. */
  predicate LostFor(s: State, step: Step, id: string)
  {
    LandsFor(s, step, id) && !(step.Finish? && step.transfer.Lands?)
  }

  /** A payment callback saves the order as paid. */
  predicate MarksFor(s: State, step: Step, id: string)
  {
    && step.Confirm? && Works(s, step.worker) && s.jobs[step.worker].Confirming?
    && s.jobs[step.worker].marks && s.jobs[step.worker].order == id
  }

  predicate LostIn(s: State, steps: seq<Step>, id: string)
  {
    && steps != []
    && (LostIn(s, steps[..|steps| - 1], id) || LostFor(Run(s, steps[..|steps| - 1]), steps[|steps| - 1], id))
  }

  /** A transfer lands after one was lost. */
  predicate LandsAgain(s: State, steps: seq<Step>, id: string)
  {
    && steps != []
    && (LandsAgain(s, steps[..|steps| - 1], id)
        || (LostIn(s, steps[..|steps| - 1], id) && LandsFor(Run(s, steps[..|steps| - 1]), steps[|steps| - 1], id)))
  }

  /** A callback saves the order as paid after a transfer was lost. */
  predicate PaidAgain(s: State, steps: seq<Step>, id: string)
  {
    && steps != []
    && (PaidAgain(s, steps[..|steps| - 1], id)
        || (LostIn(s, steps[..|steps| - 1], id) && MarksFor(Run(s, steps[..|steps| - 1]), steps[|steps| - 1], id)))
  }

  /** And a transfer lands after that. */
  predicate LandsOnNewPayment(s: State, steps: seq<Step>, id: string)
  {
    && steps != []
    && (LandsOnNewPayment(s, steps[..|steps| - 1], id)
        || (PaidAgain(s, steps[..|steps| - 1], id) && LandsFor(Run(s, steps[..|steps| - 1]), steps[|steps| - 1], id)))
  }

  lemma PaidOutStep(s: State, step: Step, id: string)
    ensures PaidOutOf(Apply(s, step), id) == PaidOutOf(s, id) + if LandsFor(s, step, id) then 1 else 0
  {
  }

  lemma LostStep(s: State, step: Step, id: string)
    requires id in s.orders
    ensures id in Apply(s, step).orders
    ensures Apply(s, step).orders[id].trace.lost == s.orders[id].trace.lost + if LostFor(s, step, id) then 1 else 0
  {
  }

  lemma LandsWhileProcessing(s: State, step: Step, id: string)
    requires Owned(s) && LandsFor(s, step, id)
    ensures s.orders[id].status == Processing
  {
    assert Holds(s, step.worker);
  }

  /** One more step of an order that is sound, with what was lost and landed before it. */
  lemma LandingStep(s: State, step: Step, id: string)
    requires Sound(s) && !Clashes(s, step)
    ensures LandsFor(s, step, id) ==> id in s.orders && PaidOutOf(s, id) == s.orders[id].trace.lost
    ensures id in s.orders ==>
              && id in Apply(s, step).orders
              && Apply(s, step).orders[id].trace.lost == s.orders[id].trace.lost + if LostFor(s, step, id) then 1 else 0
    ensures id !in s.orders && id in Apply(s, step).orders ==> Apply(s, step).orders[id].trace.lost == 0
    ensures id in s.orders && PaidOutOf(s, id) > 1 ==> s.orders[id].trace.lost > 0
  {
    hide Apply, Clashes, BalanceIs, Owned;
    if id in s.orders {
      LostStep(s, step, id);
    } else if id in Apply(s, step).orders {
      FirstTrace(s, step, id);
    }
    if LandsFor(s, step, id) {
      LandsWhileProcessing(s, step, id);
    }
  }

  lemma FirstTrace(s: State, step: Step, id: string)
    requires id !in s.orders && id in Apply(s, step).orders
    ensures Apply(s, step).orders[id].trace == Trace(0, 0, 0)
  {
  }

  /**
   * Over a run without a clash, an order not paid out before is paid out more
   * than once exactly if a transfer of it that the service did not learn of is
   * followed by another transfer that lands.
   */
  lemma {:induction false} PaidTwiceIff(s: State, steps: seq<Step>, id: string)
    requires Sound(s) && Clean(s, steps) && (id in s.orders ==> s.orders[id].trace == Trace(0, 0, 0))
    ensures PaidOutOf(Run(s, steps), id) >= 2 <==> LandsAgain(s, steps, id)
    ensures if LostIn(s, steps, id) then PaidOutOf(Run(s, steps), id) >= 1
            else id in Run(s, steps).orders ==> Run(s, steps).orders[id].trace.lost == 0
  {
    hide Apply, Clashes, Sound, LandsFor;
    if steps != [] {
      var before, step := steps[..|steps| - 1], steps[|steps| - 1];
      var now := Run(s, before);
      PaidTwiceIff(s, before, id);
      SoundRun(s, before);
      PaidOutStep(now, step, id);
      LandingStep(now, step, id);
    }
  }

  // ---- and that takes another payment callback ----

  /** Every processor takes an order that is still paid. */
  predicate TakesPaid(s: State, steps: seq<Step>)
  {
    steps != [] ==>
      && TakesPaid(s, steps[..|steps| - 1])
      && (steps[|steps| - 1].Take? ==> ReadsCurrent(Run(s, steps[..|steps| - 1]), steps[|steps| - 1]))
  }

  /** Nobody has the order, and no processor will find it. */
  ghost predicate Dormant(s: State, id: string)
  {
    && id in s.orders && (s.orders[id].status == Failed || s.orders[id].status == Processing)
    && forall p :: p in s.jobs && Holding(s.jobs[p]) ==> s.jobs[p].order != id
  }

  lemma DormantStatus(s: State, step: Step, id: string)
    requires Dormant(s, id) && !MarksFor(s, step, id) && (step.Take? ==> ReadsCurrent(s, step))
    ensures id in Apply(s, step).orders
    ensures Apply(s, step).orders[id].status == Failed || Apply(s, step).orders[id].status == Processing
    ensures Worker(step).Some? && Worker(step).value in Apply(s, step).jobs
            && Holding(Apply(s, step).jobs[Worker(step).value])
            ==> Apply(s, step).jobs[Worker(step).value].order != id
  {
  }

  lemma DormantStep(s: State, step: Step, id: string)
    requires Dormant(s, id) && !MarksFor(s, step, id) && (step.Take? ==> ReadsCurrent(s, step))
    ensures Dormant(Apply(s, step), id)
  {
    hide Apply, MarksFor, ReadsCurrent;
    DormantStatus(s, step, id);
    forall p | p in Apply(s, step).jobs && Holding(Apply(s, step).jobs[p])
      ensures Apply(s, step).jobs[p].order != id
    {
      if Worker(step) != Some(p) {
        JobsStep(s, step, p);
      }
    }
  }

  lemma LostBecomesDormant(s: State, step: Step, id: string)
    requires Owned(s) && LostFor(s, step, id)
    ensures Dormant(Apply(s, step), id)
  {
    var w := step.worker;
    assert Holds(s, w);
    forall p | p in Apply(s, step).jobs && Holding(Apply(s, step).jobs[p])
      ensures Apply(s, step).jobs[p].order != id
    {
      JobsStep(s, step, p);
    }
  }

  lemma DormantDoesNotLand(s: State, step: Step, id: string)
    requires Dormant(s, id)
    ensures !LandsFor(s, step, id)
  {
  }

  lemma {:induction false} DormantUnlessPaidAgain(s: State, steps: seq<Step>, id: string)
    requires Sound(s) && Clean(s, steps) && TakesPaid(s, steps)
    ensures LostIn(s, steps, id) && !PaidAgain(s, steps, id) ==> Dormant(Run(s, steps), id)
    ensures LandsAgain(s, steps, id) <==> LandsOnNewPayment(s, steps, id)
    ensures PaidAgain(s, steps, id) ==> LostIn(s, steps, id)
  {
    hide Apply, Clashes, Dormant, LandsFor, LostFor, MarksFor, ReadsCurrent;
    if steps != [] {
      var before, step := steps[..|steps| - 1], steps[|steps| - 1];
      var now := Run(s, before);
      DormantUnlessPaidAgain(s, before, id);
      SoundRun(s, before);
      if LostFor(now, step, id) {
        LostBecomesDormant(now, step, id);
      }
      if LostIn(s, before, id) && !PaidAgain(s, before, id) {
        DormantDoesNotLand(now, step, id);
        if !MarksFor(now, step, id) {
          DormantStep(now, step, id);
        }
      }
    }
  }

  /**
   * If every processor takes its order while it is still paid, it is paid out
   * more than once exactly if after a lost transfer a payment callback saves
   * it as paid again, and then another transfer lands.
   */
  lemma PaidTwiceByCallbackIff(s: State, steps: seq<Step>, id: string)
    requires Sound(s) && Clean(s, steps) && TakesPaid(s, steps)
    requires id in s.orders ==> s.orders[id].trace == Trace(0, 0, 0)
    ensures PaidOutOf(Run(s, steps), id) >= 2 <==> LandsOnNewPayment(s, steps, id)
  {
    PaidTwiceIff(s, steps, id);
    DormantUnlessPaidAgain(s, steps, id);
  }

  /** The steps of one callback and its processor, with nobody in between. */
  function PayAgain(s: State, id: string, worker: nat, tx: string): State
    requires id in s.orders
  {
    var told := Apply(s, Ipn(worker, id, Payment(true, true, s.orders[id].vndAmount)));
    Apply(Apply(Apply(Apply(told, Confirm(worker)), Look(worker, id)), Take(worker, true)), Finish(worker, Lands(tx)))
  }

  /** A failed order is paid again when its payment callback comes again, even if its first transfer landed. */
  lemma RepeatedCallbackPaysAgain(s: State, id: string, worker: nat, tx: string)
    requires Sound(s) && id in s.orders && s.orders[id].status == Failed
    requires worker !in s.jobs && s.orders[id].ethAmount <= s.relayer
    ensures var t := PayAgain(s, id, worker, tx);
            && id in t.orders && t.orders[id].status == Completed && t.relayer == s.relayer - s.orders[id].ethAmount
            && t.orders[id].trace.paidOut == s.orders[id].trace.lost + 1
  {
    hide Owned, BalanceIs, AllReadEarlier;
  }

  // ---- the balance and the completed orders ----

  /** What a wallet should be credited: its completed orders. */
  function CompletedOrders(s: State, wallet: string): map<string, int>
  {
    map id | id in s.orders && s.orders[id].status == Completed && s.orders[id].wallet == wallet ::
      s.orders[id].ethAmount
  }

  predicate AboutToCredit(job: Job)
  {
    job.Crediting? || job.Saving?
  }

  /** A worker is about to credit the order. */
  ghost predicate Due(s: State, id: string)
  {
    exists p :: p in s.jobs && AboutToCredit(s.jobs[p]) && s.jobs[p].order == id
  }

  /** The worker of a completed order gives up without a credit: it cannot read or save the balance, or dies. */
  predicate Misses(s: State, step: Step, id: string)
  {
    match step
    case Read(worker, reached) =>
      !reached && Works(s, worker) && s.jobs[worker].Crediting? && s.jobs[worker].order == id
    case Credit(worker, saved) =>
      Works(s, worker) && s.jobs[worker].Saving? && s.jobs[worker].order == id && (!saved || !Saves(s, worker))
    case Crash(worker, _) => Works(s, worker) && AboutToCredit(s.jobs[worker]) && s.jobs[worker].order == id
    case _ => false
  }

  predicate MissedIn(s: State, steps: seq<Step>, id: string)
  {
    && steps != []
    && (MissedIn(s, steps[..|steps| - 1], id) || Misses(Run(s, steps[..|steps| - 1]), steps[|steps| - 1], id))
  }

  /** Completed and not credited: by a miss, for good, or not yet. */
  ghost predicate Accounted(s: State, missed: bool, id: string)
  {
    && (missed ==>
          id in s.orders && s.orders[id].status == Completed && s.orders[id].trace.credited == 0 && !Due(s, id))
    && (id in s.orders && s.orders[id].status == Completed && s.orders[id].trace.credited == 0 ==> missed || Due(s, id))
  }

  lemma MissStep(s: State, step: Step, id: string)
    requires Owned(s) && Misses(s, step, id)
    ensures var t := Apply(s, step);
            id in t.orders && t.orders[id].status == Completed && t.orders[id].trace.credited == 0 && !Due(t, id)
  {
    assert Holds(s, step.worker);
    forall p | p in Apply(s, step).jobs && AboutToCredit(Apply(s, step).jobs[p])
      ensures Apply(s, step).jobs[p].order != id
    {
      JobsStep(s, step, p);
    }
  }

  /** A worker comes to credit an order by completing it, or was about to. */
  lemma DueBefore(s: State, step: Step, p: nat)
    requires Owned(s) && p in Apply(s, step).jobs && AboutToCredit(Apply(s, step).jobs[p])
    ensures p in s.jobs && s.jobs[p].order == Apply(s, step).jobs[p].order && Works(s, p)
    ensures AboutToCredit(s.jobs[p]) || s.orders[s.jobs[p].order].status == Processing
  {
    if p in s.jobs {
      assert Works(s, p) && (Holding(s.jobs[p]) ==> Holds(s, p));
    }
  }

  lemma CreditsDue(s: State, step: Step, id: string)
    requires Owned(s) && id in s.orders && id in Apply(s, step).orders
    requires Apply(s, step).orders[id].trace.credited != s.orders[id].trace.credited
    ensures Due(s, id)
  {
    assert step.Credit? && step.worker in s.jobs && AboutToCredit(s.jobs[step.worker]);
  }

  lemma MissedStays(s: State, step: Step, id: string)
    requires Owned(s) && !Clashes(s, step) && id in s.orders && Settled(s.orders[id])
    requires s.orders[id].status == Completed && s.orders[id].trace.credited == 0 && !Due(s, id)
    ensures var t := Apply(s, step);
            id in t.orders && t.orders[id].status == Completed && t.orders[id].trace.credited == 0 && !Due(t, id)
  {
    hide Apply, Owned, Clashes, Settled;
    OrderStep(s, step, id);
    if Apply(s, step).orders[id].trace.credited != 0 {
      CreditsDue(s, step, id);
    }
    forall p | p in Apply(s, step).jobs && AboutToCredit(Apply(s, step).jobs[p])
      ensures Apply(s, step).jobs[p].order != id
    {
      DueBefore(s, step, p);
    }
  }

  lemma DueStep(s: State, step: Step, p: nat, id: string)
    requires Owned(s) && p in s.jobs && AboutToCredit(s.jobs[p]) && s.jobs[p].order == id
    requires !Misses(s, step, id)
    ensures id in Apply(s, step).orders
    ensures Due(Apply(s, step), id) || Apply(s, step).orders[id].trace.credited > 0
  {
    assert Works(s, p);
    OrdersStay(s, step, id);
    if Worker(step) != Some(p) {
      JobsStep(s, step, p);
    } else {
      assert (p in Apply(s, step).jobs && AboutToCredit(Apply(s, step).jobs[p]) && Apply(s, step).jobs[p].order == id)
             || Apply(s, step).orders[id].trace.credited > 0;
    }
  }

  /** An order becomes completed by the worker that will credit it. */
  lemma BecomesDue(s: State, step: Step, id: string)
    requires id in s.orders ==> s.orders[id].status != Completed
    requires id in Apply(s, step).orders && Apply(s, step).orders[id].status == Completed
    ensures Due(Apply(s, step), id)
  {
    assert step.Finish? && step.worker in Apply(s, step).jobs && Apply(s, step).jobs[step.worker] == Crediting(id);
  }

  lemma AccountedStep(s: State, step: Step, missed: bool, id: string)
    requires Sound(s) && !Clashes(s, step) && Accounted(s, missed, id)
    ensures Accounted(Apply(s, step), missed || Misses(s, step, id), id)
  {
    hide Apply, Owned, Clashes, Settled, BalanceIs, AllReadEarlier, Misses;
    var t := Apply(s, step);
    if Misses(s, step, id) {
      MissStep(s, step, id);
    } else if missed {
      MissedStays(s, step, id);
    } else if id in t.orders && t.orders[id].status == Completed && t.orders[id].trace.credited == 0 {
      if id in s.orders && s.orders[id].status == Completed {
        if p :| p in s.jobs && AboutToCredit(s.jobs[p]) && s.jobs[p].order == id {
          DueStep(s, step, p, id);
        } else {
          OrderStep(s, step, id);
          CreditsDue(s, step, id);
        }
      } else {
        BecomesDue(s, step, id);
      }
    }
  }

  lemma {:induction false} AccountedRun(steps: seq<Step>, id: string)
    requires Clean(EMPTY, steps)
    ensures Accounted(Run(EMPTY, steps), MissedIn(EMPTY, steps, id), id)
  {
    hide Apply, Clashes, Sound, Accounted, Misses;
    if steps == [] {
      NothingYet(id);
    } else {
      var before := steps[..|steps| - 1];
      AccountedRun(before, id);
      EmptyIsSound();
      SoundRun(EMPTY, before);
      AccountedStep(Run(EMPTY, before), steps[|steps| - 1], MissedIn(EMPTY, before, id), id);
    }
  }

  lemma NothingYet(id: string)
    ensures Accounted(EMPTY, false, id)
  {
  }

  lemma NotDueOnceCredited(s: State, id: string)
    requires Owned(s) && id in s.orders && s.orders[id].trace.credited > 0
    ensures !Due(s, id)
  {
    forall p | p in s.jobs && AboutToCredit(s.jobs[p])
      ensures s.jobs[p].order != id
    {
      assert Holds(s, p);
    }
  }

  /** A completed order was credited exactly if no worker missed it and none is about to. */
  lemma CreditedIff(steps: seq<Step>, id: string)
    requires Clean(EMPTY, steps)
    requires id in Run(EMPTY, steps).orders && Run(EMPTY, steps).orders[id].status == Completed
    ensures Run(EMPTY, steps).orders[id].trace.credited > 0
            <==> !MissedIn(EMPTY, steps, id) && !Due(Run(EMPTY, steps), id)
  {
    hide Apply, Run, Owned, BalanceIs, Due;
    EmptyIsSound();
    SoundRun(EMPTY, steps);
    AccountedRun(steps, id);
    if Run(EMPTY, steps).orders[id].trace.credited > 0 {
      NotDueOnceCredited(Run(EMPTY, steps), id);
    }
  }

  /** The balance shows the completed orders exactly if those of a positive amount are all credited. */
  lemma CreditedTotal(s: State, wallet: string)
    requires AllSettled(s) && BalanceIs(s, wallet)
    ensures BalanceOf(s, wallet).totalDeposited == MapSum(CompletedOrders(s, wallet))
            <==> forall id :: id in CompletedOrders(s, wallet) && s.orders[id].ethAmount > 0 ==>
                   s.orders[id].trace.credited > 0
  {
    hide BalanceOf, MapSum;
    MapSumPart(CompletedOrders(s, wallet), Credited(s, wallet));
  }

  /**
   * Over any run without a clash, a wallet's balance shows all its completed
   * orders exactly if no worker missed a credit of one of them, of a positive
   * amount, and none is about to credit one.
   */
  lemma BalanceShowsCompletedIff(steps: seq<Step>, wallet: string)
    requires Clean(EMPTY, steps)
    ensures var t := Run(EMPTY, steps);
            BalanceOf(t, wallet).totalDeposited == MapSum(CompletedOrders(t, wallet))
            <==> forall id :: id in CompletedOrders(t, wallet) && t.orders[id].ethAmount > 0 ==>
                   !MissedIn(EMPTY, steps, id) && !Due(t, id)
  {
    hide Apply, Run, Clean, MissedIn, Due, AllSettled, BalanceIs, BalanceOf, MapSum;
    var t := Run(EMPTY, steps);
    EmptyIsSound();
    SoundRun(EMPTY, steps);
    CreditedTotal(t, wallet);
    forall id | id in CompletedOrders(t, wallet)
      ensures t.orders[id].trace.credited > 0 <==> !MissedIn(EMPTY, steps, id) && !Due(t, id)
    {
      CreditedIff(steps, id);
    }
  }

  // ---- what a race costs ----

  /**
   * Two processors that find an order paid before either takes it both pay
   * it: each of the two callbacks starts one.
   */
  lemma TwoLooksPayTwice(s: State, id: string, a: nat, b: nat, x: string, y: string)
    requires id in s.orders && s.orders[id].status == Paid && s.relayer >= 2 * s.orders[id].ethAmount
    requires a != b && a !in s.jobs && b !in s.jobs
    ensures var found := Apply(Apply(s, Look(a, id)), Look(b, id));
            var taken := Apply(Apply(found, Take(a, true)), Take(b, true));
            var t := Apply(Apply(taken, Finish(a, Lands(x))), Finish(b, Lands(y)));
            && PaidOutOf(t, id) == PaidOutOf(s, id) + 2
            && a in t.jobs && t.jobs[a] == Crediting(id) && b in t.jobs && t.jobs[b] == Crediting(id)
  {
    var found := Apply(Apply(s, Look(a, id)), Look(b, id));
    var taken := Apply(Apply(found, Take(a, true)), Take(b, true));
    assert taken.jobs[a] == Transferring(id, s.orders[id].retryCount);
    assert taken.jobs[b] == Transferring(id, s.orders[id].retryCount);
    PaidOutStep(taken, Finish(a, Lands(x)), id);
    PaidOutStep(Apply(taken, Finish(a, Lands(x))), Finish(b, Lands(y)), id);
  }

  /** The credits of two such processors both count. */
  lemma TwoCreditsCount(s: State, id: string, a: nat, b: nat)
    requires id in s.orders && a != b && a in s.jobs && s.jobs[a] == Crediting(id) && b in s.jobs
             && s.jobs[b] == Crediting(id)
    ensures var first := Apply(Apply(s, Read(a, true)), Credit(a, true));
            var t := Apply(Apply(first, Read(b, true)), Credit(b, true));
            && id in t.orders
            && BalanceOf(t, s.orders[id].wallet).totalDeposited
               == BalanceOf(s, s.orders[id].wallet).totalDeposited + 2 * s.orders[id].ethAmount
  {
    var wallet := s.orders[id].wallet;
    var first := Apply(Apply(s, Read(a, true)), Credit(a, true));
    assert first.jobs[b] == Crediting(id) && wallet in first.balances;
    assert BalanceOf(first, wallet).totalDeposited == BalanceOf(s, wallet).totalDeposited + s.orders[id].ethAmount;
  }

  /**
   * A notification that read the order while it was pending, and saves it
   * after a processor took it, makes it paid again under that processor.
   */
  lemma LateSaveReopens(s: State, id: string, a: nat, b: nat)
    requires id in s.orders && s.orders[id].status == Pending
    requires a != b && a !in s.jobs && b !in s.jobs
    ensures var p := Payment(true, true, s.orders[id].vndAmount);
            var heard := Apply(Apply(Apply(s, Ipn(a, id, p)), Return(b, id, p)), Confirm(b));
            var taken := Apply(Apply(heard, Look(b, id)), Take(b, true));
            var t := Apply(taken, Confirm(a));
            && taken.orders[id].status == Processing && Clashes(taken, Confirm(a))
            && b in t.jobs && t.jobs[b].Transferring? && Finds(t, a, id)
  {
    var p := Payment(true, true, s.orders[id].vndAmount);
    var heard := Apply(Apply(Apply(s, Ipn(a, id, p)), Return(b, id, p)), Confirm(b));
    assert heard.jobs[a].Confirming? && heard.jobs[a].marks && heard.orders[id].status == Paid && b !in heard.jobs;
    var taken := Apply(Apply(heard, Look(b, id)), Take(b, true));
    assert taken.jobs[b].Transferring? && taken.jobs[b].order == id && Holding(taken.jobs[b]);
  }

  /** Of two credits to one wallet that read its balance before either saves, one is lost, though both were saved. */
  lemma OverlappingCreditsLoseOne(s: State, a: nat, b: nat, id: string, other: string)
    requires id in s.orders && other in s.orders && id != other && s.orders[id].wallet == s.orders[other].wallet
    requires s.orders[id].wallet in s.balances
    requires a != b && a in s.jobs && s.jobs[a] == Crediting(id) && b in s.jobs && s.jobs[b] == Crediting(other)
    ensures var seen := Apply(Apply(s, Read(a, true)), Read(b, true));
            var t := Apply(Apply(seen, Credit(a, true)), Credit(b, true));
            var wallet := s.orders[id].wallet;
            && BalanceOf(t, wallet).totalDeposited == BalanceOf(s, wallet).totalDeposited + s.orders[other].ethAmount
            && BalanceOf(t, wallet).depositCount == BalanceOf(s, wallet).depositCount + 1
            && t.orders[id].trace.credited == s.orders[id].trace.credited + 1
            && t.orders[other].trace.credited == s.orders[other].trace.credited + 1
  {
    var wallet := s.orders[id].wallet;
    var seen := Apply(Apply(s, Read(a, true)), Read(b, true));
    assert seen.jobs[a] == Saving(id, Some(s.balances[wallet]))
           && seen.jobs[b] == Saving(other, Some(s.balances[wallet]));
    var first := Apply(seen, Credit(a, true));
    assert first.jobs[b] == seen.jobs[b] && first.orders[other] == s.orders[other];
  }

  // ---- paid in full ----

  /** An order that left pending by payment was paid its own amount. */
  predicate PaidInFull(o: Order)
  {
    o.amountPaid == None || o.amountPaid == Some(o.vndAmount)
  }

  /** A callback is about to save another amount than the order's. */
  predicate HeardOther(s: State, worker: nat, id: string)
  {
    && worker in s.jobs && s.jobs[worker].Confirming? && s.jobs[worker].order == id && id in s.orders
    && s.jobs[worker].amount.Some? && s.jobs[worker].amount != Some(s.orders[id].vndAmount)
  }

  /** The save of such a callback is the only step after which the order is not paid in full. */
  lemma PaidInFullIff(s: State, step: Step, id: string)
    requires id in s.orders && PaidInFull(s.orders[id])
    ensures id in Apply(s, step).orders
    ensures PaidInFull(Apply(s, step).orders[id]) <==> !(step.Confirm? && HeardOther(s, step.worker, id))
  {
  }

  /** And only the return callback, which does not compare the amount, can be one. */
  lemma HeardOtherIff(s: State, step: Step, worker: nat, id: string)
    requires id in s.orders && PaidInFull(s.orders[id]) && worker !in s.jobs
    ensures HeardOther(Apply(s, step), worker, id)
            <==> step.Return? && step.worker == worker && step.id == id && ReturnPays(s, id, step.payment)
                 && step.payment.amount != s.orders[id].vndAmount
  {
  }
}
