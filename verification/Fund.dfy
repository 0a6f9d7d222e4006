/** The life of one event on the Fund contract: who moves its status, and when its shares are final. */
module Fund {
  import opened Status

  datatype Event = Event(status: ChainStatus, investment: bool, sharesFinalized: bool, funding: nat, goal: nat)

  /** Without investment an event starts out funded. */
  function Created(investment: bool, goal: nat): Event
  {
    Event(if investment then OnFunding else OnFunded, investment, !investment, 0, goal)
  }

  datatype Action =
    | Contribute(amount: nat, afterDeadline: bool)
    | FinalizeFunding(afterDeadline: bool)
    | CancelEvent(salesNotMet: bool, revenueReleased: bool)
    | StartTicketing(minted: bool)
    | SetCompleted(thresholdMet: bool)

  /** A call that reverts leaves the event as it is. */
  function Act(e: Event, a: Action): Event
  {
    match a
    case Contribute(amount, afterDeadline) =>
      if !e.investment || e.status != OnFunding || afterDeadline || e.sharesFinalized || amount == 0 then e
      else
        var paid := e.(funding := e.funding + amount);
        if paid.funding >= e.goal then paid.(status := OnFunded, sharesFinalized := true) else paid
    case FinalizeFunding(afterDeadline) =>
      if e.sharesFinalized then e
      else if !e.investment then e.(status := OnFunded, sharesFinalized := true)
      else if !afterDeadline then (if e.status != OnFunded then e else e.(sharesFinalized := true))
      else e.(status := if e.status != OnFunded then OnCancelled else e.status, sharesFinalized := true)
    case CancelEvent(salesNotMet, revenueReleased) =>
      if e.status == OnCancelled || e.status == OnCompleted || revenueReleased
         || (salesNotMet && e.status != OnTicketing)
      then e
      else e.(status := OnCancelled, sharesFinalized := true)
    case StartTicketing(minted) =>
      if (e.status != OnFunded && e.status != OnTicketing) || !e.sharesFinalized || !minted then e
      else e.(status := OnTicketing)
    case SetCompleted(thresholdMet) =>
      if e.status != OnTicketing || !thresholdMet then e else e.(status := OnCompleted)
  }

  function Run(e: Event, actions: seq<Action>): Event
  {
    if actions == [] then e else Act(Run(e, actions[..|actions| - 1]), actions[|actions| - 1])
  }

  /** Shares are final exactly when the event is no longer funding; only events with investment ever are. */
  predicate Rule(e: Event)
  {
    (e.sharesFinalized <==> e.status != OnFunding) && (e.status == OnFunding ==> e.investment)
  }

  lemma {:induction false} SharesFinalUnlessFunding(investment: bool, goal: nat, actions: seq<Action>)
    ensures Rule(Run(Created(investment, goal), actions))
  {
    if actions != [] {
      SharesFinalUnlessFunding(investment, goal, actions[..|actions| - 1]);
    }
  }

  /** The moves of the status that the contract knows. */
  predicate Moves(from: ChainStatus, to: ChainStatus)
  {
    || from == to
    || (from == OnFunding && (to == OnFunded || to == OnCancelled))
    || (from == OnFunded && (to == OnTicketing || to == OnCancelled))
    || (from == OnTicketing && (to == OnCompleted || to == OnCancelled))
  }

  /**
   * Finalising a funding event cancels it, after the deadline, or reverts; no
   * action moves the status otherwise than above.
   */
  lemma ActMoves(e: Event, a: Action)
    requires Rule(e)
    ensures Moves(e.status, Act(e, a).status)
    ensures a.FinalizeFunding? ==>
      Act(e, a).status == if e.status == OnFunding && a.afterDeadline then OnCancelled else e.status
  {
  }

  /** The goal decides: an event with investment is past funding exactly if it was reached, unless it was cancelled. */
  predicate ByGoal(e: Event)
  {
    && (e.status == OnFunding ==> e.funding == 0 || e.funding < e.goal)
    && (e.investment && e.status != OnFunding && e.status != OnCancelled ==> 0 < e.funding && e.goal <= e.funding)
    && (!e.investment ==> e.funding == 0)
  }

  lemma {:induction false} GoalDecides(investment: bool, goal: nat, actions: seq<Action>)
    ensures ByGoal(Run(Created(investment, goal), actions))
  {
    hide Act;
    if actions != [] {
      var before, a := Run(Created(investment, goal), actions[..|actions| - 1]), actions[|actions| - 1];
      GoalDecides(investment, goal, actions[..|actions| - 1]);
      SharesFinalUnlessFunding(investment, goal, actions[..|actions| - 1]);
      GoalStep(before, a);
    }
  }

  lemma GoalStep(e: Event, a: Action)
    requires Rule(e) && ByGoal(e)
    ensures ByGoal(Act(e, a))
  {
  }

  /** When each action moves the status, and nothing else does. */
  lemma ActsIff(e: Event, a: Action)
    requires Rule(e)
    ensures var d := Act(e, a);
            match a
            case Contribute(amount, afterDeadline) =>
              var taken := e.status == OnFunding && !afterDeadline && amount > 0;
              && d.funding == (if taken then e.funding + amount else e.funding)
              && d.status == if taken && d.funding >= e.goal then OnFunded else e.status
            case FinalizeFunding(afterDeadline) =>
              d.funding == e.funding && (d.status != e.status <==> e.status == OnFunding && afterDeadline)
            case CancelEvent(salesNotMet, revenueReleased) =>
              && d.funding == e.funding
              && (d.status != e.status
                  <==> && e.status in {OnFunding, OnFunded, OnTicketing} && !revenueReleased
                       && (salesNotMet ==> e.status == OnTicketing))
            case StartTicketing(minted) =>
              && d.funding == e.funding && (d.status != e.status <==> e.status == OnFunded && minted)
              && (d.status != e.status ==> d.status == OnTicketing)
            case SetCompleted(thresholdMet) =>
              && d.funding == e.funding && (d.status != e.status <==> e.status == OnTicketing && thresholdMet)
              && (d.status != e.status ==> d.status == OnCompleted)
  {
  }
}
