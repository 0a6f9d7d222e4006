/** Which payments an order answers for: nothing moves without a good one, and a good one is carried through. */
module DepositPayments {
  import opened Options
  import opened Sums
  import opened Deposits
  import opened DepositLaws
  import opened DepositOutcomes

  // ---- nothing moves without a good payment ----

  /** A payment callback for the order that VNPay signed and reports as successful; a notification has the amount. */
  predicate GoodPayment(step: Step, id: string, vndAmount: int)
  {
    && (step.Ipn? || step.Return?) && step.id == id
    && step.payment.verified && step.payment.success
    && (step.Ipn? ==> step.payment.amount == vndAmount)
  }

  /** The order is as it was created, but for its expiry. */
  predicate Unpaid(o: Order)
  {
    && (o.status == Pending || o.status == Expired) && o.amountPaid == None && o.transferTx == None
    && o.retryCount == 0 && o.trace == Trace(0, 0, 0)
  }

  ghost predicate Untouched(s: State, id: string)
  {
    && (id in s.orders ==> Unpaid(s.orders[id]))
    && forall p :: p in s.jobs ==> s.jobs[p].order != id
  }

  lemma UntouchedOrder(s: State, step: Step, id: string)
    requires Untouched(s, id)
    ensures id in Apply(s, step).orders ==> Unpaid(Apply(s, step).orders[id])
  {
  }

  lemma UntouchedWorker(s: State, step: Step, id: string)
    requires Untouched(s, id) && !(id in s.orders && GoodPayment(step, id, s.orders[id].vndAmount))
    ensures Worker(step).Some? && Worker(step).value in Apply(s, step).jobs ==>
              Apply(s, step).jobs[Worker(step).value].order != id
  {
  }

  lemma UntouchedStep(s: State, step: Step, id: string)
    requires Untouched(s, id) && !(id in s.orders && GoodPayment(step, id, s.orders[id].vndAmount))
    ensures Untouched(Apply(s, step), id)
  {
    hide Apply, Unpaid, GoodPayment;
    UntouchedOrder(s, step, id);
    UntouchedWorker(s, step, id);
    forall p | p in Apply(s, step).jobs
      ensures Apply(s, step).jobs[p].order != id
    {
      if Worker(step) != Some(p) {
        JobsStep(s, step, p);
      }
    }
  }

  lemma AmountStays(s: State, step: Step, id: string)
    requires id in s.orders
    ensures id in Apply(s, step).orders && Apply(s, step).orders[id].vndAmount == s.orders[id].vndAmount
  {
  }

  /** Without a good payment in the run, the order is as it was created. */
  lemma {:induction false} UntouchedRun(steps: seq<Step>, id: string)
    requires id in Run(EMPTY, steps).orders ==>
               forall i :: 0 <= i < |steps| ==> !GoodPayment(steps[i], id, Run(EMPTY, steps).orders[id].vndAmount)
    ensures Untouched(Run(EMPTY, steps), id)
  {
    hide Apply, Untouched, GoodPayment;
    if steps == [] {
      NothingYetOf(id);
    } else {
      var before, step := steps[..|steps| - 1], steps[|steps| - 1];
      if id in Run(EMPTY, before).orders {
        AmountStays(Run(EMPTY, before), step, id);
      }
      UntouchedRun(before, id);
      UntouchedStep(Run(EMPTY, before), step, id);
    }
  }

  lemma NothingYetOf(id: string)
    ensures Untouched(EMPTY, id)
  {
  }

  /**
   * Over any run, with any clashes: an order that is anything but pending or
   * expired, or was paid out or credited, has an earlier good payment in the
   * run.
   */
  lemma PaidOnlyByGoodPayment(steps: seq<Step>, id: string)
    requires id in Run(EMPTY, steps).orders
    requires var o := Run(EMPTY, steps).orders[id];
             (o.status != Pending && o.status != Expired) || o.trace.paidOut > 0 || o.trace.credited > 0
    ensures exists i :: 0 <= i < |steps| && GoodPayment(steps[i], id, Run(EMPTY, steps).orders[id].vndAmount)
  {
    hide Apply, GoodPayment, Run;
    if forall i :: 0 <= i < |steps| ==> !GoodPayment(steps[i], id, Run(EMPTY, steps).orders[id].vndAmount) {
      UntouchedRun(steps, id);
    }
  }

  // ---- and a good payment is carried through ----

  /** The order can still be marked as paid by a callback of this kind. */
  predicate Open(step: Step, o: Order)
  {
    if step.Return? then o.status == Pending else o.status != Completed && o.status != Processing
  }

  /** A callback has an effect exactly for a good payment of an open order; then its save marks the order as paid. */
  lemma CallbackActsIff(s: State, step: Step)
    requires (step.Ipn? || step.Return?) && step.worker !in s.jobs
    ensures Apply(s, step) != s
            <==> && step.id in s.orders && GoodPayment(step, step.id, s.orders[step.id].vndAmount)
                 && Open(step, s.orders[step.id])
    ensures Apply(s, step) != s ==>
              var t := Apply(Apply(s, step), Confirm(step.worker));
              && t.jobs == s.jobs && t.balances == s.balances && t.relayer == s.relayer
              && t.orders == s.orders[step.id := s.orders[step.id].(status := Paid,
                                                                    amountPaid := Some(step.payment.amount))]
  {
    var told := Apply(s, step);
    if told != s {
      assert told.jobs[step.worker].order == step.id && told.orders == s.orders;
      assert Apply(told, Confirm(step.worker)).jobs == s.jobs;
    }
  }

  /** The reply to a notification names the first thing that is wrong with it. */
  lemma ReplyNamesFirstFault(s: State, id: string, p: Payment)
    ensures (ReplyTo(s, id, p) == FailChecksum <==> !p.verified)
            && (ReplyTo(s, id, p) == UnknownError <==> p.verified && !p.success)
            && (ReplyTo(s, id, p) == OrderNotFound <==> p.verified && p.success && id !in s.orders)
    ensures id in s.orders && p.verified && p.success ==>
              var o := s.orders[id];
              && (ReplyTo(s, id, p) == InvalidAmount <==> p.amount != o.vndAmount)
              && (ReplyTo(s, id, p) == AlreadyConfirmed
                  <==> p.amount == o.vndAmount && (o.status == Completed || o.status == Processing))
              && (ReplyTo(s, id, p) == Success
                  <==> p.amount == o.vndAmount && o.status != Completed && o.status != Processing)
  {
  }

  /** A processor works on a paid order only. */
  lemma ProcessorActsIff(s: State, worker: nat, id: string)
    requires worker !in s.jobs
    ensures Apply(s, Look(worker, id)) != s <==> id in s.orders && s.orders[id].status == Paid
    ensures Apply(s, Look(worker, id)) != s ==>
              && Apply(s, Look(worker, id)).orders == s.orders
              && Apply(Apply(s, Look(worker, id)), Take(worker, true)).orders
                 == s.orders[id := s.orders[id].(status := Processing)]
  {
  }

  /** The order while its processor sends the transfer. */
  predicate InTransfer(s: State, worker: nat, id: string)
  {
    worker in s.jobs && id in s.orders && s.jobs[worker] == Transferring(id, s.orders[id].retryCount)
  }

  /** The transfer completes the order exactly if it lands and reports so; otherwise it counts a failure. */
  lemma TransferOutcome(s: State, worker: nat, id: string, t: TransferResult)
    requires InTransfer(s, worker, id)
    ensures var o, r := s.orders[id], Apply(s, Finish(worker, t));
            var funded := o.ethAmount <= s.relayer;
            && r.balances == s.balances && r.orders.Keys == s.orders.Keys
            && (forall other :: other in s.orders && other != id ==> r.orders[other] == s.orders[other])
            && r.relayer == s.relayer - (if funded && t != SendFails then o.ethAmount else 0)
            && r.orders[id].trace.paidOut == o.trace.paidOut + (if funded && t != SendFails then 1 else 0)
            && if funded && t.Lands?
               then r.orders[id].status == Completed && r.orders[id].transferTx == Some(t.txHash)
                    && r.orders[id].retryCount == o.retryCount
               else r.orders[id].status == Failed && r.orders[id].transferTx == o.transferTx
                    && r.orders[id].retryCount == o.retryCount + 1
  {
  }

  /** The steps of a processor on a paid order, and of its balance update. */
  function Delivered(s: State, worker: nat, id: string, tx: string): State
  {
    Run(s, [Look(worker, id), Take(worker, true), Finish(worker, Lands(tx)), Read(worker, true), Credit(worker, true)])
  }

  lemma RunFive(s: State, a: Step, b: Step, c: Step, d: Step, e: Step)
    ensures Run(s, [a, b, c, d, e]) == Apply(Apply(Apply(Apply(Apply(s, a), b), c), d), e)
  {
    hide Apply;
    RunOne(s, a);
    RunMore(s, [a], b);
    RunMore(s, [a] + [b], c);
    RunMore(s, [a] + [b] + [c], d);
    RunMore(s, [a] + [b] + [c] + [d], e);
    assert [a] + [b] + [c] + [d] + [e] == [a, b, c, d, e];
  }

  /** An undisturbed balance update adds the amount of the order to the balance of its wallet. */
  predicate CreditsOrder(s: State, t: State, id: string)
    requires id in s.orders
  {
    var o := s.orders[id];
    && t.orders == s.orders[id := o.(trace := o.trace.(credited := o.trace.credited + 1))]
    && t.balances.Keys == s.balances.Keys + {o.wallet}
    && (forall w :: w in s.balances && w != o.wallet ==> t.balances[w] == s.balances[w])
    && BalanceOf(t, o.wallet).totalDeposited == BalanceOf(s, o.wallet).totalDeposited + o.ethAmount
    && BalanceOf(t, o.wallet).availableBalance == BalanceOf(s, o.wallet).availableBalance + o.ethAmount
    && BalanceOf(t, o.wallet).depositCount == BalanceOf(s, o.wallet).depositCount + 1
    && BalanceOf(t, o.wallet).totalWithdrawn == BalanceOf(s, o.wallet).totalWithdrawn
  }

  lemma UpdateAddsToBalance(s: State, worker: nat, id: string)
    requires id in s.orders && worker in s.jobs && s.jobs[worker] == Crediting(id)
    ensures var t := Apply(Apply(s, Read(worker, true)), Credit(worker, true));
            CreditsOrder(s, t, id) && t.jobs == s.jobs - {worker} && t.relayer == s.relayer
  {
    var seen := Apply(s, Read(worker, true));
    assert seen.jobs == s.jobs[worker := seen.jobs[worker]] && seen.jobs[worker].Saving?;
    assert Apply(seen, Credit(worker, true)).jobs == s.jobs - {worker};
  }

  lemma ProcessorSends(s: State, worker: nat, id: string, tx: string)
    requires worker !in s.jobs && id in s.orders && s.orders[id].status == Paid && s.orders[id].ethAmount <= s.relayer
    ensures var o := s.orders[id];
            var t := Apply(Apply(Apply(s, Look(worker, id)), Take(worker, true)), Finish(worker, Lands(tx)));
            && t == State(s.orders[id := o.(status := Completed, transferTx := Some(tx),
                                             trace := o.trace.(paidOut := o.trace.paidOut + 1))],
                          s.balances, s.jobs[worker := Crediting(id)], s.relayer - o.ethAmount)
  {
    var o := s.orders[id];
    var found := Apply(s, Look(worker, id));
    assert found == s.(jobs := s.jobs[worker := Starting(id, o.retryCount)]);
    var taken := Apply(found, Take(worker, true));
    assert taken.orders == s.orders[id := o.(status := Processing)]
           && taken.jobs == s.jobs[worker := Transferring(id, o.retryCount)];
    var sent := Apply(taken, Finish(worker, Lands(tx)));
    assert sent.jobs == s.jobs[worker := Crediting(id)];
    assert sent.orders == taken.orders[id := sent.orders[id]];
  }

  /** Undisturbed, a paid order is transferred and credited with its own amount, and nothing else changes. */
  lemma PaidOrderIsDelivered(s: State, worker: nat, id: string, tx: string)
    requires worker !in s.jobs && id in s.orders && s.orders[id].status == Paid && s.orders[id].ethAmount <= s.relayer
    ensures var o, t := s.orders[id], Delivered(s, worker, id, tx);
            var sent := s.(orders := s.orders[id := o.(status := Completed, transferTx := Some(tx),
                                                       trace := o.trace.(paidOut := o.trace.paidOut + 1))]);
            CreditsOrder(sent, t, id) && t.jobs == s.jobs && t.relayer == s.relayer - o.ethAmount
  {
    hide Apply;
    RunFive(s, Look(worker, id), Take(worker, true), Finish(worker, Lands(tx)), Read(worker, true),
            Credit(worker, true));
    ProcessorSends(s, worker, id, tx);
    UpdateAddsToBalance(
      Apply(Apply(Apply(s, Look(worker, id)), Take(worker, true)), Finish(worker, Lands(tx))), worker, id);
  }

  /** The sweep for overdue orders expires exactly the pending ones among them. */
  lemma OnlyPendingExpires(s: State, due: set<string>, id: string)
    requires id in s.orders
    ensures var t := Apply(s, Expire(due));
            && t.orders.Keys == s.orders.Keys && t.balances == s.balances && t.jobs == s.jobs && t.relayer == s.relayer
            && (t.orders[id] != s.orders[id] <==> id in due && s.orders[id].status == Pending)
            && (t.orders[id] != s.orders[id] ==> t.orders[id] == s.orders[id].(status := Expired))
  {
  }

  // ---- where the relayer's funds go ----

  /** What the relayer sent for each order. */
  ghost function Spent(s: State): map<string, int>
  {
    map id | id in s.orders :: s.orders[id].trace.paidOut * s.orders[id].ethAmount
  }

  function ToppedUp(steps: seq<Step>): nat
  {
    if steps == [] then 0
    else ToppedUp(steps[..|steps| - 1]) + if steps[|steps| - 1].TopUp? then steps[|steps| - 1].funds else 0
  }

  /** The order that a step may change. */
  ghost function OrderOf(s: State, step: Step): Option<string>
  {
    match Worker(step)
    case None => if step.Create? then Some(step.id) else None
    case Some(w) => if w in s.jobs then Some(s.jobs[w].order) else None
  }

  lemma OtherOrderKept(s: State, step: Step, id: string)
    requires OrderOf(s, step) != Some(id)
    ensures id in Apply(s, step).orders <==> id in s.orders
    ensures id in s.orders ==> Apply(s, step).orders[id].trace == s.orders[id].trace
                               && Apply(s, step).orders[id].ethAmount == s.orders[id].ethAmount
  {
  }

  lemma OwnOrderPaid(s: State, step: Step, id: string)
    requires OrderOf(s, step) == Some(id)
    ensures var t := Apply(s, step);
            && (id in s.orders ==>
                  && id in t.orders && t.orders[id].ethAmount == s.orders[id].ethAmount
                  && (t.orders[id].trace.paidOut == s.orders[id].trace.paidOut
                      || t.orders[id].trace.paidOut == s.orders[id].trace.paidOut + 1)
                  && t.relayer == s.relayer - if t.orders[id].trace.paidOut == s.orders[id].trace.paidOut then 0
                                              else s.orders[id].ethAmount)
            && (id !in s.orders ==> t.relayer == s.relayer && (id in t.orders ==> t.orders[id].trace.paidOut == 0))
  {
  }

  lemma NobodysFunds(s: State, step: Step)
    requires OrderOf(s, step).None?
    ensures Apply(s, step).relayer == s.relayer + if step.TopUp? then step.funds else 0
  {
  }

  lemma FundsStep(s: State, step: Step)
    ensures Apply(s, step).relayer + MapSum(Spent(Apply(s, step)))
            == s.relayer + MapSum(Spent(s)) + if step.TopUp? then step.funds else 0
  {
    hide Apply, MapSum;
    var t := Apply(s, step);
    var o := OrderOf(s, step);
    forall id | o != Some(id)
      ensures id in Spent(t) <==> id in Spent(s)
      ensures id in Spent(s) ==> Spent(t)[id] == Spent(s)[id]
    {
      OtherOrderKept(s, step, id);
    }
    if o.None? {
      NobodysFunds(s, step);
      assert Spent(t) == Spent(s);
    } else {
      OwnOrderPaid(s, step, o.value);
      if o.value in t.orders {
        assert Spent(t) == Spent(s)[o.value := Spent(t)[o.value]];
        MapSumPut(Spent(s), o.value, Spent(t)[o.value]);
      } else {
        assert Spent(t) == Spent(s);
      }
      if o.value in s.orders {
        PaidAtMostOnce(s, t, o.value);
      }
    }
  }

  lemma PaidAtMostOnce(s: State, t: State, id: string)
    requires id in s.orders && id in t.orders && t.orders[id].ethAmount == s.orders[id].ethAmount
    requires 0 <= t.orders[id].trace.paidOut - s.orders[id].trace.paidOut <= 1
    ensures Spent(t)[id]
            == Spent(s)[id]
               + if t.orders[id].trace.paidOut == s.orders[id].trace.paidOut then 0 else s.orders[id].ethAmount
  {
    OneMore(s.orders[id].trace.paidOut, t.orders[id].trace.paidOut, s.orders[id].ethAmount);
  }

  lemma OneMore(n: int, m: int, amount: int)
    requires 0 <= m - n <= 1
    ensures m * amount == n * amount + if m == n then 0 else amount
  {
    if m != n {
      assert m == n + 1;
      assert (n + 1) * amount == n * amount + amount;
    }
  }

  /**
   * Over any run, with any clashes and crashes, every amount that was given to
   * the relayer is still there or was sent to the wallet of an order, once for
   * each time the order counts as paid out.
   */
  lemma {:induction false} FundsAreAccountedFor(steps: seq<Step>)
    ensures Run(EMPTY, steps).relayer + MapSum(Spent(Run(EMPTY, steps))) == ToppedUp(steps)
  {
    hide Apply, Spent;
    if steps == [] {
      NothingSpent();
    } else {
      FundsAreAccountedFor(steps[..|steps| - 1]);
      FundsStep(Run(EMPTY, steps[..|steps| - 1]), steps[|steps| - 1]);
    }
  }

  lemma NothingSpent()
    ensures MapSum(Spent(EMPTY)) == 0
  {
    assert Spent(EMPTY) == map[];
  }
}
