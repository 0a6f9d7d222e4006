/**
 * Laws of the deposit protocol, over any interleaving of callbacks,
 * processors, balance updates, crashes and expiry.
 */
module DepositLaws {
  import opened Options
  import opened Sums
  import opened Deposits

  /** What has been credited to a wallet, order by order. */
  function Credited(s: State, wallet: string): map<string, int>
  {
    map id | id in s.orders && s.orders[id].trace.credited > 0 && s.orders[id].wallet == wallet ::
      s.orders[id].ethAmount
  }

  // ---- the invariant ----

  /**
   * Credited at most once, and only when completed; paid out once for being
   * completed, plus every transfer the service did not learn of.
   */
  predicate Settled(o: Order)
  {
    && o.trace.credited <= (if o.status == Completed then 1 else 0)
    && o.trace.paidOut == o.trace.lost + if o.status == Completed then 1 else 0
  }

  predicate AllSettled(s: State)
  {
    forall id :: id in s.orders ==> Settled(s.orders[id])
  }

  /** A worker that has taken its order. */
  predicate Holding(job: Job)
  {
    !job.Confirming? && !job.Starting?
  }

  /** The order of such a worker is in the status that belongs to its stage, and not yet credited. */
  predicate Holds(s: State, worker: nat)
    requires Works(s, worker)
  {
    var o := s.orders[s.jobs[worker].order];
    o.trace.credited == 0 && o.status == if s.jobs[worker].Transferring? then Processing else Completed
  }

  /** It has the order for itself. */
  ghost predicate Owned(s: State)
  {
    && (forall p :: p in s.jobs ==> Works(s, p) && (Holding(s.jobs[p]) ==> Holds(s, p)))
    && (forall p, q :: p in s.jobs && q in s.jobs && Holding(s.jobs[p]) && Holding(s.jobs[q]) ==>
          s.jobs[p].order != s.jobs[q].order || p == q)
  }

  /** A balance about to be saved was read from the wallet, then or earlier. */
  predicate ReadEarlier(s: State, worker: nat)
    requires Works(s, worker)
  {
    var job, wallet := s.jobs[worker], s.orders[s.jobs[worker].order].wallet;
    job.Saving? && job.balance.Some? ==>
      && wallet in s.balances
      && (job.balance.value == s.balances[wallet] || job.balance.value.depositCount < s.balances[wallet].depositCount)
  }

  ghost predicate AllReadEarlier(s: State)
  {
    forall p :: p in s.jobs ==> Works(s, p) && ReadEarlier(s, p)
  }

  ghost predicate BalanceIs(s: State, wallet: string)
  {
    var b := BalanceOf(s, wallet);
    && b.totalDeposited == MapSum(Credited(s, wallet)) == b.availableBalance + b.totalWithdrawn
    && b.depositCount == |Credited(s, wallet)|
  }

  ghost predicate Sound(s: State)
  {
    AllSettled(s) && Owned(s) && AllReadEarlier(s) && forall wallet :: BalanceIs(s, wallet)
  }

  // ---- the races ----

  /** Nobody has taken the order, and it is not completed. */
  ghost predicate Clear(s: State, id: string)
    requires id in s.orders
  {
    s.orders[id].status != Completed && forall p :: p in s.jobs && Holding(s.jobs[p]) ==> s.jobs[p].order != id
  }

  /**
   * A save that its reader would not have made at this moment: a callback
   * marks, or a processor takes, an order that another one took since, or a
   * balance is saved over another one.
   */
  ghost predicate Clashes(s: State, step: Step)
  {
    match step
    case Confirm(worker) =>
      Works(s, worker) && s.jobs[worker].Confirming? && s.jobs[worker].marks && !Clear(s, s.jobs[worker].order)
    case Take(worker, _) => Works(s, worker) && s.jobs[worker].Starting? && !Clear(s, s.jobs[worker].order)
    case Credit(worker, saved) =>
      && saved && Works(s, worker) && s.jobs[worker].Saving? && s.jobs[worker].balance.Some?
      && s.jobs[worker].balance.value != BalanceOf(s, s.orders[s.jobs[worker].order].wallet)
    case _ => false
  }

  // ---- one step ----

  function Worker(step: Step): Option<nat>
  {
    match step
    case Create(_, _, _, _) => None
    case Expire(_) => None
    case TopUp(_) => None
    case _ => Some(step.worker)
  }

  /** What a step may do to one order. */
  lemma OrderStep(s: State, step: Step, id: string)
    requires Owned(s) && !Clashes(s, step) && id in s.orders && Settled(s.orders[id])
    ensures id in Apply(s, step).orders
    ensures var o, o' := s.orders[id], Apply(s, step).orders[id];
            && Settled(o') && o'.wallet == o.wallet && o'.ethAmount == o.ethAmount && o'.vndAmount == o.vndAmount
            && (o.status == Completed ==>
                  o'.status == Completed && o'.transferTx == o.transferTx
                  && o'.trace == o.trace.(credited := o'.trace.credited))
            && ((step.Credit? && step.saved) || o'.trace.credited == o.trace.credited)
  {
    assert forall p :: p in s.jobs ==> Works(s, p) && (Holding(s.jobs[p]) ==> Holds(s, p));
  }

  lemma NewOrder(s: State, step: Step, id: string)
    requires id in Apply(s, step).orders && id !in s.orders
    ensures Settled(Apply(s, step).orders[id]) && Apply(s, step).orders[id].trace.credited == 0
  {
  }

  lemma BalancesStep(s: State, step: Step)
    ensures (step.Credit? && step.saved) || Apply(s, step).balances == s.balances
  {
  }

  /** Orders keep their wallet, amount and credit; new ones have no credit. */
  ghost predicate SameCredits(s: State, t: State)
  {
    && s.balances == t.balances
    && (forall id :: id in s.orders ==>
          id in t.orders && s.orders[id].wallet == t.orders[id].wallet
          && s.orders[id].ethAmount == t.orders[id].ethAmount
          && s.orders[id].trace.credited == t.orders[id].trace.credited)
    && (forall id :: id in t.orders && id !in s.orders ==> t.orders[id].trace.credited == 0)
  }

  lemma SameCreditsSameBalances(s: State, t: State)
    requires SameCredits(s, t)
    ensures forall wallet :: BalanceIs(s, wallet) ==> BalanceIs(t, wallet)
  {
    forall wallet
      ensures Credited(s, wallet) == Credited(t, wallet)
    {
    }
  }

  lemma StepKeepsSettled(s: State, step: Step)
    requires AllSettled(s) && Owned(s) && !Clashes(s, step)
    ensures AllSettled(Apply(s, step))
    ensures (step.Credit? && step.saved) || SameCredits(s, Apply(s, step))
  {
    hide Apply, Owned, Settled, Clashes;
    forall id | id in s.orders {
      OrderStep(s, step, id);
    }
    forall id | id in Apply(s, step).orders && id !in s.orders {
      NewOrder(s, step, id);
    }
    BalancesStep(s, step);
  }

  /** A step changes the job of its own worker only. */
  lemma JobsStep(s: State, step: Step, q: nat)
    requires Worker(step) != Some(q)
    ensures q in Apply(s, step).jobs <==> q in s.jobs
    ensures q in s.jobs ==> Apply(s, step).jobs[q] == s.jobs[q]
  {
  }

  /** Only a callback that read the order as paid may still save, and then only the amount it heard. */
  lemma OthersKeep(s: State, step: Step, q: nat)
    requires Owned(s) && !Clashes(s, step) && q in s.jobs && Holding(s.jobs[q]) && Worker(step) != Some(q)
    ensures var t, id := Apply(s, step), s.jobs[q].order;
            id in s.orders && id in t.orders && t.orders[id] == s.orders[id].(amountPaid := t.orders[id].amountPaid)
  {
    assert Works(s, q) && Holds(s, q);
    if Worker(step).Some? && Worker(step).value in s.jobs {
      assert Works(s, Worker(step).value);
    }
  }

  /** A worker takes a clear order only, and keeps to it. */
  lemma WorkerStep(s: State, step: Step, w: nat)
    requires Owned(s) && AllSettled(s) && !Clashes(s, step) && Worker(step) == Some(w) && w in Apply(s, step).jobs
    ensures var t := Apply(s, step);
            && Works(t, w) && (Holding(t.jobs[w]) ==> Holds(t, w))
            && (Holding(t.jobs[w]) && w in s.jobs && Holding(s.jobs[w]) ==> t.jobs[w].order == s.jobs[w].order)
            && (Holding(t.jobs[w]) && !(w in s.jobs && Holding(s.jobs[w])) ==>
                  t.jobs[w].order in s.orders && Clear(s, t.jobs[w].order))
  {
    assert w in s.jobs ==> Works(s, w) && (Holding(s.jobs[w]) ==> Holds(s, w));
  }

  lemma OrdersStay(s: State, step: Step, id: string)
    requires id in s.orders
    ensures id in Apply(s, step).orders && Apply(s, step).orders[id].wallet == s.orders[id].wallet
  {
  }

  lemma SameHolds(s: State, t: State, q: nat)
    requires Works(s, q) && Works(t, q) && t.jobs[q] == s.jobs[q] && Holds(s, q)
    requires t.orders[s.jobs[q].order] == s.orders[s.jobs[q].order].(amountPaid := t.orders[s.jobs[q].order].amountPaid)
    ensures Holds(t, q)
  {
  }

  lemma StepKeepsOwned(s: State, step: Step)
    requires Owned(s) && AllSettled(s) && !Clashes(s, step)
    ensures Owned(Apply(s, step))
  {
    hide Apply, Clashes, Holds, AllSettled;
    var t := Apply(s, step);
    forall q | q in t.jobs
      ensures Works(t, q) && (Holding(t.jobs[q]) ==> Holds(t, q))
      ensures Worker(step) != Some(q) ==> q in s.jobs && t.jobs[q] == s.jobs[q]
    {
      if Worker(step) == Some(q) {
        WorkerStep(s, step, q);
      } else {
        JobsStep(s, step, q);
        OrdersStay(s, step, s.jobs[q].order);
        if Holding(s.jobs[q]) {
          OthersKeep(s, step, q);
          SameHolds(s, t, q);
        }
      }
    }
    if Worker(step).Some? && Worker(step).value in t.jobs {
      WorkerStep(s, step, Worker(step).value);
    }
  }

  /** A credit changes the credited orders and the balance of its own wallet only. */
  lemma CreditedStep(s: State, worker: nat, wallet: string)
    requires Owned(s) && Works(s, worker) && s.jobs[worker].Saving? && Saves(s, worker)
    ensures var t, id := CreditOrder(s, worker, true), s.jobs[worker].order;
            var o := s.orders[id];
            && id !in Credited(s, wallet)
            && Credited(t, wallet)
               == (if wallet == o.wallet then Credited(s, wallet)[id := o.ethAmount] else Credited(s, wallet))
            && BalanceOf(t, wallet)
               == (if wallet == o.wallet then Plus(BalanceOf(s, wallet), s.jobs[worker].balance, o.ethAmount)
                   else BalanceOf(s, wallet))
  {
    assert Holds(s, worker);
    hide Owned, Holds;
  }

  /** A credit that adds to the balance as it is. */
  ghost predicate AddsToCurrent(s: State, worker: nat)
    requires Works(s, worker) && s.jobs[worker].Saving?
  {
    Saves(s, worker)
    && (s.jobs[worker].balance.Some? ==>
         s.jobs[worker].balance.value == BalanceOf(s, s.orders[s.jobs[worker].order].wallet))
  }

  lemma CreditKeepsBalance(s: State, worker: nat, wallet: string)
    requires Owned(s) && Works(s, worker) && s.jobs[worker].Saving? && AddsToCurrent(s, worker) && BalanceIs(s, wallet)
    ensures BalanceIs(CreditOrder(s, worker, true), wallet)
  {
    hide Owned, Credited, CreditOrder;
    var id := s.jobs[worker].order;
    CreditedStep(s, worker, wallet);
    MapSumPut(Credited(s, wallet), id, s.orders[id].ethAmount);
  }

  /** A balance saved over another one counts one credit too few from then on. */
  lemma StaleCreditBreaks(s: State, worker: nat)
    requires Sound(s) && Clashes(s, Credit(worker, true))
    ensures !Sound(Apply(s, Credit(worker, true)))
  {
    var wallet := s.orders[s.jobs[worker].order].wallet;
    assert ReadEarlier(s, worker);
    CreditedStep(s, worker, wallet);
    assert BalanceIs(s, wallet);
    hide Owned, AllSettled, Credited, CreditOrder, AllReadEarlier;
    assert !BalanceIs(Apply(s, Credit(worker, true)), wallet);
  }

  /** Without a clash a balance only grows. */
  lemma BalanceGrows(s: State, step: Step, wallet: string)
    requires wallet in s.balances && !Clashes(s, step)
    ensures var t := Apply(s, step);
            wallet in t.balances
            && (t.balances[wallet] == s.balances[wallet]
                || t.balances[wallet].depositCount > s.balances[wallet].depositCount)
  {
  }

  lemma OwnRead(s: State, step: Step, w: nat)
    requires Worker(step) == Some(w) && w in Apply(s, step).jobs && Works(Apply(s, step), w)
    requires w in s.jobs ==> Works(s, w) && ReadEarlier(s, w)
    ensures ReadEarlier(Apply(s, step), w)
  {
  }

  lemma StepKeepsReads(s: State, step: Step)
    requires AllReadEarlier(s) && !Clashes(s, step)
    ensures forall q :: q in Apply(s, step).jobs && Works(Apply(s, step), q) ==> ReadEarlier(Apply(s, step), q)
  {
    hide Apply, Clashes;
    var t := Apply(s, step);
    forall q | q in t.jobs && Works(t, q)
      ensures ReadEarlier(t, q)
    {
      if Worker(step) == Some(q) {
        OwnRead(s, step, q);
      } else {
        JobsStep(s, step, q);
        OrdersStay(s, step, s.jobs[q].order);
        var wallet := s.orders[s.jobs[q].order].wallet;
        if wallet in s.balances {
          BalanceGrows(s, step, wallet);
        }
      }
    }
  }

  /** A sound system stays sound over a step exactly if the step is not a clash. */
  lemma SoundStep(s: State, step: Step)
    requires Sound(s)
    ensures Sound(Apply(s, step)) <==> !Clashes(s, step)
  {
    if Clashes(s, step) {
      ClashBreaks(s, step);
    } else {
      CleanStep(s, step);
    }
  }

  lemma ClashBreaks(s: State, step: Step)
    requires Sound(s) && Clashes(s, step)
    ensures !Sound(Apply(s, step))
  {
    if step.Credit? {
      StaleCreditBreaks(s, step.worker);
    } else {
      TakenTwiceBreaks(s, step);
    }
  }

  lemma TakenTwiceBreaks(s: State, step: Step)
    requires AllSettled(s) && Owned(s) && Clashes(s, step) && (step.Take? || step.Confirm?)
    ensures !(AllSettled(Apply(s, step)) && Owned(Apply(s, step)))
  {
    var t, w := Apply(s, step), step.worker;
    var id := s.jobs[w].order;
    if s.orders[id].status == Completed {
      assert !Settled(t.orders[id]);
    } else {
      var p :| p in s.jobs && Holding(s.jobs[p]) && s.jobs[p].order == id;
      assert Holds(s, p);
      assert p in t.jobs && t.jobs[p] == s.jobs[p] && Holding(t.jobs[p]);
      if step.Take? && step.saved {
        assert w in t.jobs && Holding(t.jobs[w]) && t.jobs[w].order == id && p != w;
      } else {
        assert Works(t, p) && !Holds(t, p);
      }
    }
  }

  lemma CleanStep(s: State, step: Step)
    requires Sound(s) && !Clashes(s, step)
    ensures Sound(Apply(s, step))
  {
    hide Apply, Owned, BalanceIs, AllSettled, SameCredits, ReadEarlier;
    StepKeepsSettled(s, step);
    StepKeepsOwned(s, step);
    StepKeepsReads(s, step);
    assert AllReadEarlier(Apply(s, step)) by {
      WorksAll(Apply(s, step));
    }
    if step.Credit? && step.saved {
      forall wallet
        ensures BalanceIs(Apply(s, step), wallet)
      {
        CreditStep(s, step.worker, wallet);
      }
    } else {
      SameCreditsSameBalances(s, Apply(s, step));
    }
  }

  lemma WorksAll(s: State)
    requires Owned(s)
    ensures forall p :: p in s.jobs ==> Works(s, p)
  {
  }

  lemma CreditStep(s: State, worker: nat, wallet: string)
    requires Owned(s) && BalanceIs(s, wallet) && !Clashes(s, Credit(worker, true))
    ensures BalanceIs(Apply(s, Credit(worker, true)), wallet)
  {
    hide Owned, Credited;
    var t := Apply(s, Credit(worker, true));
    if Works(s, worker) && s.jobs[worker].Saving? && Saves(s, worker) {
      CreditKeepsBalance(s, worker, wallet);
    } else {
      assert Credited(t, wallet) == Credited(s, wallet) by {
        SameOrdersSameCredits(s, t, wallet);
      }
    }
  }

  lemma SameOrdersSameCredits(s: State, t: State, wallet: string)
    requires s.orders == t.orders
    ensures Credited(s, wallet) == Credited(t, wallet)
  {
  }

  // ---- what holds over every run ----

  /** No step of the run is a clash. */
  ghost predicate Clean(s: State, steps: seq<Step>)
  {
    steps != [] ==> Clean(s, steps[..|steps| - 1]) && !Clashes(Run(s, steps[..|steps| - 1]), steps[|steps| - 1])
  }

  ghost predicate AlwaysSound(s: State, steps: seq<Step>)
  {
    Sound(Run(s, steps)) && (steps != [] ==> AlwaysSound(s, steps[..|steps| - 1]))
  }

  /** A run is sound all along exactly if none of its steps is a clash. */
  lemma {:induction false} SoundRunIff(s: State, steps: seq<Step>)
    requires Sound(s)
    ensures AlwaysSound(s, steps) <==> Clean(s, steps)
  {
    hide Sound, Apply, Clashes;
    if steps != [] {
      var before := steps[..|steps| - 1];
      SoundRunIff(s, before);
      if Clean(s, before) {
        SoundStep(Run(s, before), steps[|steps| - 1]);
      }
    }
  }

  lemma SoundRun(s: State, steps: seq<Step>)
    requires Sound(s) && Clean(s, steps)
    ensures Sound(Run(s, steps))
  {
    hide Sound, Apply, Clashes;
    SoundRunIff(s, steps);
  }

  lemma EmptyIsSound()
    ensures Sound(EMPTY)
  {
    assert forall w :: Credited(EMPTY, w) == map[];
  }

  /**
   * From an empty system, over any run without a clash, every order is
   * credited at most once, no two workers take one order, and every wallet
   * adds up.
   */
  lemma WalletsAddUp(steps: seq<Step>, wallet: string)
    requires Clean(EMPTY, steps)
    ensures var s := Run(EMPTY, steps);
            && BalanceOf(s, wallet).totalDeposited == MapSum(Credited(s, wallet))
            && BalanceOf(s, wallet).totalDeposited
               == BalanceOf(s, wallet).availableBalance + BalanceOf(s, wallet).totalWithdrawn
            && BalanceOf(s, wallet).depositCount == |Credited(s, wallet)|
            && (forall id :: id in s.orders ==> s.orders[id].trace.credited <= 1)
            && (forall p, q :: p in s.jobs && q in s.jobs && Holding(s.jobs[p]) && Holding(s.jobs[q]) ==>
                  s.jobs[p].order != s.jobs[q].order || p == q)
  {
    EmptyIsSound();
    SoundRun(EMPTY, steps);
    assert BalanceIs(Run(EMPTY, steps), wallet);
  }

  /**
   * The save finds what its reader saw: the order still not taken, still
   * paid, the balance still the same.
   */
  predicate ReadsCurrent(s: State, step: Step)
  {
    match step
    case Confirm(worker) => Works(s, worker) && s.jobs[worker].Confirming? ==> !Taken(s.orders[s.jobs[worker].order])
    case Take(worker, _) =>
      Works(s, worker) && s.jobs[worker].Starting? ==> s.orders[s.jobs[worker].order].status == Paid
    case Credit(worker, _) =>
      Works(s, worker) && s.jobs[worker].Saving? ==>
        var wallet := s.orders[s.jobs[worker].order].wallet;
        s.jobs[worker].balance == if wallet in s.balances then Some(s.balances[wallet]) else None
    case _ => true
  }

  /** So there is no clash when nobody acts between a read and its save. */
  lemma CurrentReadsAreClean(s: State, step: Step)
    requires Sound(s) && ReadsCurrent(s, step)
    ensures !Clashes(s, step)
  {
    hide BalanceIs, AllSettled, AllReadEarlier;
    assert forall p :: p in s.jobs && Holding(s.jobs[p]) ==> Holds(s, p);
  }
}
