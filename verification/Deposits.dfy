/**
 * The deposit protocol: two payment callbacks, a processor and the balance
 * update act on one order. Each stretch of code between two waits is one
 * atomic step: a callback reads the order and saves it as paid, a processor
 * finds an order paid, takes it, sends the transfer, reads the wallet's
 * balance and saves it. Others may act in between, and any of them may stop
 * anywhere. A save writes only the fields that differ from what was read.
 */
module Deposits {
  import opened Options

  datatype Status = Pending | Paid | Processing | Completed | Failed | Expired | RefundedStatus

  /**
   * What happened to the money of an order: transfers on chain, those of them
   * the service did not learn of, and balance updates. Nothing reads it.
   */
  datatype Trace = Trace(paidOut: nat, lost: nat, credited: nat)

  datatype Order = Order(
    wallet: string, vndAmount: int, ethAmount: nat, status: Status,
    amountPaid: Option<int>, retryCount: nat, transferTx: Option<string>, trace: Trace)

  datatype Balance = Balance(totalDeposited: int, totalWithdrawn: int, availableBalance: int, depositCount: int)

  const NO_BALANCE := Balance(0, 0, 0, 0)

  /**
   * Where a worker is, with what it remembers of its reads: a callback about
   * to save, a processor about to take its order, sending the transfer, about
   * to read the balance, or about to save it.
   */
  datatype Job =
    | Confirming(order: string, marks: bool, amount: Option<int>)
    | Starting(order: string, retryCount: nat)
    | Transferring(order: string, retryCount: nat)
    | Crediting(order: string)
    | Saving(order: string, balance: Option<Balance>)

  /** The two collections, the workers, and the relayer's funds. */
  datatype State = State(orders: map<string, Order>, balances: map<string, Balance>, jobs: map<nat, Job>, relayer: nat)

  const EMPTY := State(map[], map[], map[], 0)

  datatype IpnReply = FailChecksum | UnknownError | OrderNotFound | InvalidAmount | AlreadyConfirmed | Success

  datatype Payment = Payment(verified: bool, success: bool, amount: int)

  datatype TransferResult = SendFails | LandsReportsFailure | Lands(txHash: string)

  datatype Step =
    | Create(id: string, wallet: string, vndAmount: int, ethAmount: nat)
    | Ipn(worker: nat, id: string, payment: Payment)
    | Return(worker: nat, id: string, payment: Payment)
    | Confirm(worker: nat)
    | Look(worker: nat, id: string)
    | Take(worker: nat, saved: bool)
    | Finish(worker: nat, transfer: TransferResult)
    | Read(worker: nat, reached: bool)
    | Credit(worker: nat, saved: bool)
    | Crash(worker: nat, landed: bool)
    | Expire(due: set<string>)
    | TopUp(funds: nat)

  // ---- specification of the steps ----

  predicate Taken(o: Order)
  {
    o.status == Completed || o.status == Processing
  }

  function ReplyTo(s: State, id: string, p: Payment): IpnReply
  {
    if !p.verified then FailChecksum
    else if !p.success then UnknownError
    else if id !in s.orders then OrderNotFound
    else if p.amount != s.orders[id].vndAmount then InvalidAmount
    else if Taken(s.orders[id]) then AlreadyConfirmed
    else Success
  }

  /** Only a pending order becomes paid here, and the amount is not compared. */
  predicate ReturnPays(s: State, id: string, p: Payment)
  {
    p.verified && p.success && id in s.orders && s.orders[id].status == Pending
  }

  /** What a callback that read this order is going to save. */
  function Marking(id: string, o: Order, amount: int): Job
  {
    Confirming(id, o.status != Paid, if o.amountPaid == Some(amount) then None else Some(amount))
  }

  predicate Works(s: State, worker: nat)
  {
    worker in s.jobs && s.jobs[worker].order in s.orders
  }

  /** Saving does not look at the order again. */
  function MarkPaid(s: State, worker: nat): State
    requires Works(s, worker) && s.jobs[worker].Confirming?
  {
    var job := s.jobs[worker];
    var o := s.orders[job.order];
    var paid := o.(status := if job.marks then Paid else o.status,
                   amountPaid := if job.amount.Some? then job.amount else o.amountPaid);
    s.(orders := s.orders[job.order := paid], jobs := s.jobs - {worker})
  }

  predicate Finds(s: State, worker: nat, id: string)
  {
    worker !in s.jobs && id in s.orders && s.orders[id].status == Paid
  }

  /** Nor does taking; if that cannot be saved, the order is marked as failed. */
  function TakeOrder(s: State, worker: nat, saved: bool): State
    requires Works(s, worker) && s.jobs[worker].Starting?
  {
    var job := s.jobs[worker];
    var o := s.orders[job.order];
    if saved then
      s.(orders := s.orders[job.order := o.(status := Processing)],
         jobs := s.jobs[worker := Transferring(job.order, job.retryCount)])
    else
      s.(orders := s.orders[job.order := o.(status := Failed, retryCount := job.retryCount + 1)],
         jobs := s.jobs - {worker})
  }

  function PaidOut(o: Order, lost: bool): Order
  {
    o.(trace := o.trace.(paidOut := o.trace.paidOut + 1, lost := o.trace.lost + if lost then 1 else 0))
  }

  /** The funds leave the relayer only if they are there. */
  function FinishTransfer(s: State, worker: nat, t: TransferResult): State
    requires Works(s, worker) && s.jobs[worker].Transferring?
  {
    var job := s.jobs[worker];
    var id := job.order;
    var o := s.orders[id];
    var landed := t != SendFails && o.ethAmount <= s.relayer;
    var sent := if landed then PaidOut(o, !t.Lands?) else o;
    var funds := if landed then s.relayer - o.ethAmount else s.relayer;
    if landed && t.Lands? then
      s.(orders := s.orders[id := sent.(status := Completed, transferTx := Some(t.txHash))],
         jobs := s.jobs[worker := Crediting(id)], relayer := funds)
    else
      s.(orders := s.orders[id := sent.(status := Failed, retryCount := job.retryCount + 1)],
         jobs := s.jobs - {worker}, relayer := funds)
  }

  function BalanceOf(s: State, wallet: string): Balance
  {
    if wallet in s.balances then s.balances[wallet] else NO_BALANCE
  }

  function ReadBalance(s: State, worker: nat): State
    requires Works(s, worker) && s.jobs[worker].Crediting?
  {
    var id := s.jobs[worker].order;
    var wallet := s.orders[id].wallet;
    s.(jobs := s.jobs[worker := Saving(id, if wallet in s.balances then Some(s.balances[wallet]) else None)])
  }

  /** The balance that was read, or a new one, with the amount added; what was withdrawn is not written. */
  function Plus(now: Balance, read: Option<Balance>, amount: nat): Balance
  {
    var b := if read.Some? then read.value else NO_BALANCE;
    Balance(b.totalDeposited + amount, now.totalWithdrawn, b.availableBalance + amount, b.depositCount + 1)
  }

  /** A second new balance for a wallet breaks its unique index. */
  predicate Saves(s: State, worker: nat)
    requires Works(s, worker) && s.jobs[worker].Saving?
  {
    s.jobs[worker].balance.Some? || s.orders[s.jobs[worker].order].wallet !in s.balances
  }

  /** A balance that cannot be saved is only logged. */
  function CreditOrder(s: State, worker: nat, saved: bool): State
    requires Works(s, worker) && s.jobs[worker].Saving?
  {
    var job := s.jobs[worker];
    var o := s.orders[job.order];
    var done := s.(jobs := s.jobs - {worker});
    if !saved || !Saves(s, worker) then done
    else
      done.(orders := s.orders[job.order := o.(trace := o.trace.(credited := o.trace.credited + 1))],
            balances := s.balances[o.wallet := Plus(BalanceOf(s, o.wallet), job.balance, o.ethAmount)])
  }

  /** A worker that dies leaves its order as it is; a transfer it had sent may still land. */
  function Died(s: State, worker: nat, landed: bool): State
  {
    var rest := s.(jobs := s.jobs - {worker});
    if Works(s, worker) && s.jobs[worker].Transferring? && landed
       && s.orders[s.jobs[worker].order].ethAmount <= s.relayer
    then
      var id := s.jobs[worker].order;
      rest.(orders := s.orders[id := PaidOut(s.orders[id], true)], relayer := s.relayer - s.orders[id].ethAmount)
    else rest
  }

  function MarkExpired(s: State, due: set<string>): State
  {
    s.(orders := map id | id in s.orders ::
         if id in due && s.orders[id].status == Pending then s.orders[id].(status := Expired) else s.orders[id])
  }

  function Apply(s: State, step: Step): State
  {
    match step
    case Create(id, wallet, vnd, eth) =>
      if id in s.orders then s
      else s.(orders := s.orders[id := Order(wallet, vnd, eth, Pending, None, 0, None, Trace(0, 0, 0))])
    case Ipn(worker, id, p) =>
      if worker !in s.jobs && ReplyTo(s, id, p) == Success
      then s.(jobs := s.jobs[worker := Marking(id, s.orders[id], p.amount)]) else s
    case Return(worker, id, p) =>
      if worker !in s.jobs && ReturnPays(s, id, p)
      then s.(jobs := s.jobs[worker := Marking(id, s.orders[id], p.amount)]) else s
    case Confirm(worker) => if Works(s, worker) && s.jobs[worker].Confirming? then MarkPaid(s, worker) else s
    case Look(worker, id) =>
      if Finds(s, worker, id) then s.(jobs := s.jobs[worker := Starting(id, s.orders[id].retryCount)]) else s
    case Take(worker, saved) =>
      if Works(s, worker) && s.jobs[worker].Starting? then TakeOrder(s, worker, saved) else s
    case Finish(worker, t) =>
      if Works(s, worker) && s.jobs[worker].Transferring? then FinishTransfer(s, worker, t) else s
    case Read(worker, reached) =>
      if Works(s, worker) && s.jobs[worker].Crediting?
      then if reached then ReadBalance(s, worker) else s.(jobs := s.jobs - {worker})
      else s
    case Credit(worker, saved) =>
      if Works(s, worker) && s.jobs[worker].Saving? then CreditOrder(s, worker, saved) else s
    case Crash(worker, landed) => Died(s, worker, landed)
    case Expire(due) => MarkExpired(s, due)
    case TopUp(funds) => s.(relayer := s.relayer + funds)
  }

  function Run(s: State, steps: seq<Step>): State
  {
    if steps == [] then s else Apply(Run(s, steps[..|steps| - 1]), steps[|steps| - 1])
  }

  // ---- the service ----

  class DepositService {
    var orders: map<string, Order>
    var balances: map<string, Balance>
    var jobs: map<nat, Job>
    var relayer: nat

    function Now(): State
      reads this
    {
      State(orders, balances, jobs, relayer)
    }

    /** The notification up to its save, and the reply it gives unless that save fails. */
    method HandleIpn(worker: nat, id: string, p: Payment) returns (reply: IpnReply)
      requires worker !in jobs
      modifies this`jobs
      ensures Now() == Apply(old(Now()), Ipn(worker, id, p)) && reply == ReplyTo(old(Now()), id, p)
    {
      if !p.verified {
        return FailChecksum;
      }
      if !p.success {
        return UnknownError;
      }
      if id !in orders {
        return OrderNotFound;
      }
      var order := orders[id];
      if p.amount != order.vndAmount {
        return InvalidAmount;
      }
      if order.status == Completed || order.status == Processing {
        return AlreadyConfirmed;
      }
      jobs := jobs[worker := Marking(id, order, p.amount)];
      return Success;
    }

    /** The return callback up to its save. */
    method HandleReturn(worker: nat, id: string, p: Payment)
      requires worker !in jobs
      modifies this`jobs
      ensures Now() == Apply(old(Now()), Return(worker, id, p))
    {
      if !p.verified || !p.success || id !in orders {
        return;
      }
      var order := orders[id];
      if order.status == Completed || order.status == Processing {
        return;
      }
      if order.status == Pending {
        jobs := jobs[worker := Marking(id, order, p.amount)];
      }
    }

    /** The save of either callback. */
    method SavePaid(worker: nat)
      requires worker in jobs && jobs[worker].Confirming? && jobs[worker].order in orders
      modifies this`orders, this`jobs
      ensures Now() == Apply(old(Now()), Confirm(worker))
    {
      var job := jobs[worker];
      var order := orders[job.order];
      if job.marks {
        order := order.(status := Paid);
      }
      if job.amount.Some? {
        order := order.(amountPaid := job.amount);
      }
      orders := orders[job.order := order];
      jobs := jobs - {worker};
    }

    /** A processor starts: it looks the order up and checks that it is paid. */
    method LookUp(worker: nat, id: string) returns (paid: bool)
      requires worker !in jobs
      modifies this`jobs
      ensures Now() == Apply(old(Now()), Look(worker, id)) && (paid <==> Finds(old(Now()), worker, id))
    {
      if id !in orders || orders[id].status != Paid {
        return false;
      }
      jobs := jobs[worker := Starting(id, orders[id].retryCount)];
      return true;
    }

    /** It marks the order as being processed, or, if that fails, as failed. */
    method TakeOver(worker: nat, saved: bool)
      requires worker in jobs && jobs[worker].Starting? && jobs[worker].order in orders
      modifies this`orders, this`jobs
      ensures Now() == Apply(old(Now()), Take(worker, saved))
    {
      var job := jobs[worker];
      var order := orders[job.order];
      if !saved {
        orders := orders[job.order := order.(status := Failed, retryCount := job.retryCount + 1)];
        jobs := jobs - {worker};
        return;
      }
      orders := orders[job.order := order.(status := Processing)];
      jobs := jobs[worker := Transferring(job.order, job.retryCount)];
    }

    /** The transfer, and what the processor writes when it learns of the outcome. */
    method Transfer(worker: nat, t: TransferResult)
      requires worker in jobs && jobs[worker].Transferring? && jobs[worker].order in orders
      modifies this`orders, this`jobs, this`relayer
      ensures Now() == Apply(old(Now()), Finish(worker, t))
    {
      var job := jobs[worker];
      var order := orders[job.order];
      var error := relayer < order.ethAmount || t == SendFails;
      if !error {
        relayer := relayer - order.ethAmount;
        order := PaidOut(order, !t.Lands?);
      }
      if error || !t.Lands? {
        orders := orders[job.order := order.(status := Failed, retryCount := job.retryCount + 1)];
        jobs := jobs - {worker};
        return;
      }
      orders := orders[job.order := order.(status := Completed, transferTx := Some(t.txHash))];
      jobs := jobs[worker := Crediting(job.order)];
    }

    /** The balance update up to its save. */
    method FindBalance(worker: nat, reached: bool)
      requires worker in jobs && jobs[worker].Crediting? && jobs[worker].order in orders
      modifies this`jobs
      ensures Now() == Apply(old(Now()), Read(worker, reached))
    {
      var id := jobs[worker].order;
      if !reached {
        jobs := jobs - {worker};
        return;
      }
      var wallet := orders[id].wallet;
      jobs := jobs[worker := Saving(id, if wallet in balances then Some(balances[wallet]) else None)];
    }

    method UpdateUserBalance(worker: nat, saved: bool)
      requires worker in jobs && jobs[worker].Saving? && jobs[worker].order in orders
      modifies this`orders, this`balances, this`jobs
      ensures Now() == Apply(old(Now()), Credit(worker, saved))
    {
      var job := jobs[worker];
      var order := orders[job.order];
      var balance := if job.balance.Some? then job.balance.value else NO_BALANCE;
      balance := balance.(totalDeposited := balance.totalDeposited + order.ethAmount);
      balance := balance.(availableBalance := balance.availableBalance + order.ethAmount);
      balance := balance.(depositCount := balance.depositCount + 1);
      if saved && (job.balance.Some? || order.wallet !in balances) {
        var stored := if order.wallet in balances then balances[order.wallet] else NO_BALANCE;
        balances := balances[order.wallet := balance.(totalWithdrawn := stored.totalWithdrawn)];
        orders := orders[job.order := order.(trace := order.trace.(credited := order.trace.credited + 1))];
      }
      jobs := jobs - {worker};
    }
  }
}
