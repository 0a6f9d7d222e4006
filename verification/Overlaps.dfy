/**
 * Rebuilds of one event that overlap. A rebuild reads the contributions, reads
 * the holders, writes the shares and then the funding, with a wait before each;
 * contributions are recorded and refunded, and other rebuilds run, in between.
 */
module Overlaps {
  import opened Shares
  import opened Ledger
  import opened LedgerLaws

  /** What a rebuild remembers: the rows it read, and the holders that had shares. */
  datatype Rebuild =
    | RowsRead(rows: seq<Row>)
    | HoldersRead(rows: seq<Row>, holders: set<string>)
    | SharesWritten(rows: seq<Row>)

  datatype State = State(rows: seq<Row>, shares: map<string, Share>, funding: int, rebuilds: map<nat, Rebuild>)

  datatype Step =
    | Record(row: Row)
    | RefundWallet(wallet: string)
    | ReadRows(worker: nat)
    | ReadHolders(worker: nat)
    | WriteShares(worker: nat)
    | WriteFunding(worker: nat)

  function SumIn(rows: seq<Row>, e: string, h: string): int
  {
    if h in Contributors(rows, e) then SumOf(rows, e, h) else 0
  }

  /** The shares that a rebuild writes over those that are there by then. */
  function Upserts(rows: seq<Row>, holders: set<string>, now: map<string, Share>, e: string): map<string, Share>
  {
    map h | h in holders + Contributors(rows, e) ::
      WithContribution(now, h, SumIn(rows, e, h), CalculatePercentage(SumIn(rows, e, h), Total(rows, e)))
  }

  predicate At(s: State, worker: nat)
  {
    worker in s.rebuilds
  }

  function Apply(s: State, e: string, step: Step): State
  {
    match step
    case Record(row) => s.(rows := s.rows + [row])
    case RefundWallet(w) => s.(rows := MarkRefunded(s.rows, e, w))
    case ReadRows(k) => if At(s, k) then s else s.(rebuilds := s.rebuilds[k := RowsRead(s.rows)])
    case ReadHolders(k) =>
      if At(s, k) && s.rebuilds[k].RowsRead?
      then s.(rebuilds := s.rebuilds[k := HoldersRead(s.rebuilds[k].rows, s.shares.Keys)]) else s
    case WriteShares(k) =>
      if At(s, k) && s.rebuilds[k].HoldersRead?
      then s.(shares := s.shares + Upserts(s.rebuilds[k].rows, s.rebuilds[k].holders, s.shares, e),
              rebuilds := s.rebuilds[k := SharesWritten(s.rebuilds[k].rows)])
      else s
    case WriteFunding(k) =>
      if At(s, k) && s.rebuilds[k].SharesWritten?
      then s.(funding := Total(s.rebuilds[k].rows, e), rebuilds := s.rebuilds - {k}) else s
  }

  function Run(s: State, e: string, steps: seq<Step>): State
  {
    if steps == [] then s else Apply(Run(s, e, steps[..|steps| - 1]), e, steps[|steps| - 1])
  }

  // ---- when the event's writers read ----

  /** When the rebuild of the worker read its rows: after so many steps. */
  function ReadAt(s: State, e: string, steps: seq<Step>, worker: nat): (n: nat)
    ensures n <= |steps|
  {
    if steps == [] then 0
    else
      var before := steps[..|steps| - 1];
      if steps[|steps| - 1] == ReadRows(worker) && !At(Run(s, e, before), worker) then |before|
      else ReadAt(s, e, before, worker)
  }

  /** The step writes the funding. */
  predicate Funds(s: State, step: Step)
  {
    step.WriteFunding? && At(s, step.worker) && s.rebuilds[step.worker].SharesWritten?
  }

  /** When the last writer of the funding had read its rows, or else the start. */
  function FundingRead(s: State, e: string, steps: seq<Step>): (n: nat)
    ensures n <= |steps|
  {
    if steps == [] then 0
    else
      var before, step := steps[..|steps| - 1], steps[|steps| - 1];
      if Funds(Run(s, e, before), step) then ReadAt(s, e, before, step.worker) else FundingRead(s, e, before)
  }

  /** The step writes the share of the holder. */
  predicate Covers(s: State, e: string, step: Step, h: string)
  {
    && step.WriteShares? && At(s, step.worker) && s.rebuilds[step.worker].HoldersRead?
    && h in s.rebuilds[step.worker].holders + Contributors(s.rebuilds[step.worker].rows, e)
  }

  /** The same for the last writer of a holder's share. */
  function ShareRead(s: State, e: string, steps: seq<Step>, h: string): (n: nat)
    ensures n <= |steps|
  {
    if steps == [] then 0
    else
      var before, step := steps[..|steps| - 1], steps[|steps| - 1];
      if Covers(Run(s, e, before), e, step, h) then ReadAt(s, e, before, step.worker) else ShareRead(s, e, before, h)
  }

  function Amount(shares: map<string, Share>, h: string): int
  {
    if h in shares then shares[h].contribution else 0
  }

  /** Funding and amounts are what the rows say. */
  ghost predicate Agrees(s: State, e: string)
  {
    s.funding == Total(s.rows, e) && forall h :: h != "" ==> Amount(s.shares, h) == SumOf(s.rows, e, h)
  }

  /** No rebuild holds other rows than those that are there. */
  ghost predicate ReadNow(s: State)
  {
    forall k :: k in s.rebuilds ==> s.rebuilds[k].rows == s.rows
  }

  lemma Prefix(s: State, e: string, steps: seq<Step>, n: nat)
    requires steps != [] && n < |steps|
    ensures Run(s, e, steps[..n]) == Run(s, e, steps[..|steps| - 1][..n])
  {
    assert steps[..|steps| - 1][..n] == steps[..n];
  }

  lemma RowsOfStep(s: State, e: string, step: Step, k: nat)
    requires k in Apply(s, e, step).rebuilds
    ensures Apply(s, e, step).rebuilds[k].rows
            == if step == ReadRows(k) && !At(s, k) then s.rows else if At(s, k) then s.rebuilds[k].rows else []
    ensures At(s, k) || step == ReadRows(k)
  {
  }

  /** What a worker remembers are the rows that were there when it read. */
  lemma {:induction false} WorkerRead(s: State, e: string, steps: seq<Step>, k: nat)
    requires ReadNow(s) && At(Run(s, e, steps), k)
    ensures Run(s, e, steps).rebuilds[k].rows == Run(s, e, steps[..ReadAt(s, e, steps, k)]).rows
  {
    hide Apply;
    if steps != [] {
      var before := steps[..|steps| - 1];
      RowsOfStep(Run(s, e, before), e, steps[|steps| - 1], k);
      if At(Run(s, e, before), k) {
        WorkerRead(s, e, before, k);
      }
      Prefix(s, e, steps, ReadAt(s, e, steps, k));
    }
  }

  lemma FundingStep(s: State, e: string, step: Step)
    ensures Apply(s, e, step).funding == if Funds(s, step) then Total(s.rebuilds[step.worker].rows, e) else s.funding
  {
  }

  lemma {:induction false} FundingIsLastRead(s: State, e: string, steps: seq<Step>)
    requires ReadNow(s) && s.funding == Total(s.rows, e)
    ensures Run(s, e, steps).funding == Total(Run(s, e, steps[..FundingRead(s, e, steps)]).rows, e)
  {
    hide Apply, Total, ReadNow;
    if steps != [] {
      var before, step := steps[..|steps| - 1], steps[|steps| - 1];
      FundingIsLastRead(s, e, before);
      FundingStep(Run(s, e, before), e, step);
      if Funds(Run(s, e, before), step) {
        WorkerRead(s, e, before, step.worker);
      }
      Prefix(s, e, steps, FundingRead(s, e, steps));
    }
  }

  lemma ShareStep(s: State, e: string, step: Step, h: string)
    requires h != ""
    ensures Amount(Apply(s, e, step).shares, h)
            == if Covers(s, e, step, h) then SumOf(s.rebuilds[step.worker].rows, e, h) else Amount(s.shares, h)
  {
    hide SumOf, Total, CalculatePercentage;
    if Covers(s, e, step, h) && h !in Contributors(s.rebuilds[step.worker].rows, e) {
      NoRowsNoSum(s.rebuilds[step.worker].rows, e, h);
    }
  }

  lemma {:induction false} ShareIsLastRead(s: State, e: string, steps: seq<Step>, h: string)
    requires ReadNow(s) && h != "" && Amount(s.shares, h) == SumOf(s.rows, e, h)
    ensures Amount(Run(s, e, steps).shares, h) == SumOf(Run(s, e, steps[..ShareRead(s, e, steps, h)]).rows, e, h)
  {
    hide Apply, SumOf, Amount, ReadNow;
    if steps != [] {
      var before, step := steps[..|steps| - 1], steps[|steps| - 1];
      ShareIsLastRead(s, e, before, h);
      ShareStep(Run(s, e, before), e, step, h);
      if Covers(Run(s, e, before), e, step, h) {
        WorkerRead(s, e, before, step.worker);
      }
      Prefix(s, e, steps, ShareRead(s, e, steps, h));
    }
  }

  // ---- what came after those reads ----

  /** What a step records for the event, less what it refunds. */
  function Net(s: State, e: string, step: Step): int
  {
    match step
    case Record(row) => if Counts(row, e) then row.amount else 0
    case RefundWallet(w) => -SumOf(s.rows, e, w)
    case _ => 0
  }

  /** The same for one holder. */
  function NetOf(s: State, e: string, step: Step, h: string): int
  {
    match step
    case Record(row) => if Counts(row, e) && row.contributor == h then row.amount else 0
    case RefundWallet(w) => if w == h then -SumOf(s.rows, e, w) else 0
    case _ => 0
  }

  function NetSince(s: State, e: string, steps: seq<Step>, from: nat): int
  {
    if |steps| <= from then 0
    else NetSince(s, e, steps[..|steps| - 1], from) + Net(Run(s, e, steps[..|steps| - 1]), e, steps[|steps| - 1])
  }

  function NetOfSince(s: State, e: string, steps: seq<Step>, from: nat, h: string): int
  {
    if |steps| <= from then 0
    else
      NetOfSince(s, e, steps[..|steps| - 1], from, h)
      + NetOf(Run(s, e, steps[..|steps| - 1]), e, steps[|steps| - 1], h)
  }

  lemma TotalAppend(rows: seq<Row>, r: Row, e: string)
    ensures Total(rows + [r], e) == Total(rows, e) + if Counts(r, e) then r.amount else 0
  {
    assert (rows + [r])[..|rows|] == rows;
  }

  lemma NetStep(s: State, e: string, step: Step)
    ensures Total(Apply(s, e, step).rows, e) == Total(s.rows, e) + Net(s, e, step)
  {
    hide Total, SumOf, MarkRefunded;
    match step
    case Record(row) => TotalAppend(s.rows, row, e);
    case RefundWallet(w) => MarkingTakesOut(s.rows, e, w);
    case _ =>
  }

  lemma NetOfStep(s: State, e: string, step: Step, h: string)
    ensures SumOf(Apply(s, e, step).rows, e, h) == SumOf(s.rows, e, h) + NetOf(s, e, step, h)
  {
    hide Total, SumOf, MarkRefunded;
    match step
    case Record(row) =>
      SumOfAppend(s.rows + [row], e, h);
      assert (s.rows + [row])[..|s.rows|] == s.rows;
    case RefundWallet(w) =>
      MarkingTakesOut(s.rows, e, w);
      if w != h {
        MarkingIsLocal(s.rows, e, w, e, h);
      }
    case _ =>
  }

  lemma {:induction false} NetIsDifference(s: State, e: string, steps: seq<Step>, from: nat)
    requires from <= |steps|
    ensures Total(Run(s, e, steps).rows, e) == Total(Run(s, e, steps[..from]).rows, e) + NetSince(s, e, steps, from)
  {
    hide Apply, Total, Net;
    if from == |steps| {
      assert steps[..from] == steps;
    } else {
      NetIsDifference(s, e, steps[..|steps| - 1], from);
      NetStep(Run(s, e, steps[..|steps| - 1]), e, steps[|steps| - 1]);
      Prefix(s, e, steps, from);
    }
  }

  lemma {:induction false} NetOfIsDifference(s: State, e: string, steps: seq<Step>, from: nat, h: string)
    requires from <= |steps|
    ensures SumOf(Run(s, e, steps).rows, e, h)
            == SumOf(Run(s, e, steps[..from]).rows, e, h) + NetOfSince(s, e, steps, from, h)
  {
    hide Apply, SumOf, NetOf;
    if from == |steps| {
      assert steps[..from] == steps;
    } else {
      NetOfIsDifference(s, e, steps[..|steps| - 1], from, h);
      NetOfStep(Run(s, e, steps[..|steps| - 1]), e, steps[|steps| - 1], h);
      Prefix(s, e, steps, from);
    }
  }

  /**
   * However rebuilds overlap, the funding falls short of the rows by what was
   * recorded, less what was refunded, since its last writer read them.
   */
  lemma FundingShortBy(s: State, e: string, steps: seq<Step>)
    requires ReadNow(s) && s.funding == Total(s.rows, e)
    ensures Total(Run(s, e, steps).rows, e) - Run(s, e, steps).funding
            == NetSince(s, e, steps, FundingRead(s, e, steps))
  {
    hide Run, Total, NetSince, FundingRead;
    FundingIsLastRead(s, e, steps);
    NetIsDifference(s, e, steps, FundingRead(s, e, steps));
  }

  lemma ShareShortBy(s: State, e: string, steps: seq<Step>, h: string)
    requires ReadNow(s) && h != "" && Amount(s.shares, h) == SumOf(s.rows, e, h)
    ensures SumOf(Run(s, e, steps).rows, e, h) - Amount(Run(s, e, steps).shares, h)
            == NetOfSince(s, e, steps, ShareRead(s, e, steps, h), h)
  {
    hide Run, SumOf, NetOfSince, ShareRead, Amount;
    ShareIsLastRead(s, e, steps, h);
    NetOfIsDifference(s, e, steps, ShareRead(s, e, steps, h), h);
  }

  /**
   * Since the last writer of the funding read the rows, as much was recorded
   * as was refunded, and for every holder likewise since the last writer of
   * the holder's share read them.
   */
  ghost predicate NothingNetSinceRead(s: State, e: string, steps: seq<Step>)
  {
    && NetSince(s, e, steps, FundingRead(s, e, steps)) == 0
    && forall h :: h != "" ==> NetOfSince(s, e, steps, ShareRead(s, e, steps, h), h) == 0
  }

  /** So the event agrees with its rows exactly if nothing came after those reads, on balance. */
  lemma AgreesIffNothingNetSinceRead(s: State, e: string, steps: seq<Step>)
    requires ReadNow(s) && Agrees(s, e)
    ensures Agrees(Run(s, e, steps), e) <==> NothingNetSinceRead(s, e, steps)
  {
    hide Run, Total, SumOf, Amount, NetSince, NetOfSince, FundingRead, ShareRead;
    var t := Run(s, e, steps);
    FundingShortBy(s, e, steps);
    forall h | h != ""
      ensures Amount(t.shares, h) == SumOf(t.rows, e, h) <==> NetOfSince(s, e, steps, ShareRead(s, e, steps, h), h) == 0
    {
      ShareShortBy(s, e, steps, h);
    }
  }

  // ---- without refunds ----

  /** The steps record named, positive donations, and refund none. */
  ghost predicate OnlyRecords(steps: seq<Step>)
  {
    forall step :: step in steps ==>
      !step.RefundWallet? && (step.Record? ==> step.row.contributor != "" && step.row.amount > 0)
  }

  /** The step adds to what the event's rows say of the holder. */
  predicate AddsTo(step: Step, e: string, h: string)
  {
    step.Record? && Counts(step.row, e) && step.row.contributor == h
  }

  lemma {:induction false} NothingNetIff(s: State, e: string, steps: seq<Step>, from: nat)
    requires OnlyRecords(steps) && from <= |steps|
    ensures NetSince(s, e, steps, from) >= 0
    ensures NetSince(s, e, steps, from) == 0
            <==> forall i :: from <= i < |steps| ==> !(steps[i].Record? && Counts(steps[i].row, e))
  {
    hide Run;
    if from < |steps| {
      NothingNetIff(s, e, steps[..|steps| - 1], from);
      assert steps[|steps| - 1] in steps;
    }
  }

  lemma {:induction false} NothingNetOfIff(s: State, e: string, steps: seq<Step>, from: nat, h: string)
    requires OnlyRecords(steps) && from <= |steps|
    ensures NetOfSince(s, e, steps, from, h) >= 0
    ensures NetOfSince(s, e, steps, from, h) == 0 <==> forall i :: from <= i < |steps| ==> !AddsTo(steps[i], e, h)
  {
    hide Run;
    if from < |steps| {
      NothingNetOfIff(s, e, steps[..|steps| - 1], from, h);
      assert steps[|steps| - 1] in steps;
    }
  }

  /**
   * Without refunds: exactly if no contribution to the event was recorded after
   * the last writer of the funding read, and none of a holder after the last
   * writer of that holder's share read.
   */
  lemma AgreesIffNoneRecordedSince(s: State, e: string, steps: seq<Step>)
    requires ReadNow(s) && Agrees(s, e) && OnlyRecords(steps)
    ensures Agrees(Run(s, e, steps), e)
            <==> forall i :: 0 <= i < |steps| && steps[i].Record? && Counts(steps[i].row, e) ==>
                   i < FundingRead(s, e, steps) && i < ShareRead(s, e, steps, steps[i].row.contributor)
  {
    hide Run, Agrees, NetSince, NetOfSince, FundingRead, ShareRead, Counts;
    AgreesIffNothingNetSinceRead(s, e, steps);
    NothingNetIff(s, e, steps, FundingRead(s, e, steps));
    forall h | h != ""
      ensures NetOfSince(s, e, steps, ShareRead(s, e, steps, h), h) == 0
              <==> forall i :: ShareRead(s, e, steps, h) <= i < |steps| ==> !AddsTo(steps[i], e, h)
    {
      NothingNetOfIff(s, e, steps, ShareRead(s, e, steps, h), h);
    }
  }

  /** One rebuild with nothing in between settles the event, whatever it said before. */
  lemma QuietRebuildSettles(s: State, e: string, worker: nat)
    requires !At(s, worker) && Named(s.rows) && Holders(s.shares)
    ensures var written := Apply(Apply(Apply(s, e, ReadRows(worker)), e, ReadHolders(worker)), e, WriteShares(worker));
            var t := Apply(written, e, WriteFunding(worker));
            t.rows == s.rows && t.shares == RebuiltShares(s.rows, s.shares, e)
            && Matches(t.rows, e, t.funding, t.shares)
  {
    hide Total, SumOf, Contributors, CalculatePercentage, Matches;
    var written := Apply(Apply(Apply(s, e, ReadRows(worker)), e, ReadHolders(worker)), e, WriteShares(worker));
    assert written.shares == RebuiltShares(s.rows, s.shares, e);
    RebuiltMatches(s.rows, s.shares, e);
  }

  /**
   * Two contributions confirmed at the same time: the rebuild that read first
   * and wrote last leaves the funding short of the other one's amount.
   */
  lemma OverlapLosesContribution(s: State, e: string, a: nat, b: nat, x: Row, y: Row)
    requires Agrees(s, e) && a != b && !At(s, a) && !At(s, b)
    requires Counts(x, e) && Counts(y, e) && y.amount > 0
    ensures var first := Apply(Apply(Apply(s, e, Record(x)), e, ReadRows(a)), e, Record(y));
            var rebuilt := Apply(Apply(Apply(Apply(first, e, ReadRows(b)), e, ReadHolders(b)), e, WriteShares(b)), e,
                                 WriteFunding(b));
            var t := Apply(Apply(Apply(rebuilt, e, ReadHolders(a)), e, WriteShares(a)), e, WriteFunding(a));
            && rebuilt.funding == Total(rebuilt.rows, e) && t.rows == rebuilt.rows
            && t.funding == Total(t.rows, e) - y.amount
  {
    hide Upserts, Total;
    var x1 := Apply(s, e, Record(x));
    var first := Apply(Apply(x1, e, ReadRows(a)), e, Record(y));
    var rebuilt := Apply(Apply(Apply(Apply(first, e, ReadRows(b)), e, ReadHolders(b)), e, WriteShares(b)), e,
                         WriteFunding(b));
    assert rebuilt.rebuilds[a] == RowsRead(x1.rows) && rebuilt.rows == x1.rows + [y];
    TotalAppend(x1.rows, y, e);
  }
}
